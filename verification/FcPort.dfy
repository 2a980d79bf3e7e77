/** One Fibre Channel port: the FC_Port state machine (ip/fc_framer/fc_state_rx.sv), the state to
    primitive map (ip/fc_framer/fc_state_tx.sv) and the transfer registers and transmit mux
    around them (ip/fc_framer/fc_framer.sv).

    One word clock drives the receive and the transmit half of the port.
 */
module FcPort {
  import opened FcPrimitives

  datatype PortState = AC | LR1 | LR2 | LR3 | LF1 | LF2 | OL1 | OL2 | OL3

  const HOLD_OFF: nat := 6

  // ----- Specification: Table 22 of FC-FS-5, row by row -----

  // The state a port in state s takes when it recognises primitive p.
  function Next(s: PortState, p: Primitive): PortState
  {
    match p
    case PrimNos => LF1
    case PrimOls => OL2
    case _ =>
      match s
      case AC => if p == PrimLr then LR2 else if p == PrimLrr then LR3 else AC
      case LR1 => if p == PrimLr then LR2 else if p == PrimLrr then LR3 else LR1
      case LR2 => if p == PrimLrr then LR3 else if IsFill(p) then AC else LR2
      case LR3 => if p == PrimLr then LR2 else if IsFill(p) then AC else LR3
      case LF1 => if p == PrimLr then LR2 else LF1
      case LF2 => LF2
      case OL1 => if p == PrimLr then LR2 else OL1
      case OL2 => if p == PrimLr then LR2 else if p == PrimLrr then LR3 else OL2
      case OL3 => if p == PrimLr || p == PrimLrr then LF2 else if IsFill(p) then OL2 else OL3
  }

  // The hold-off counter counts the clocks a port still has to spend in AC.
  function HoldOff(s: PortState, h: nat): nat
  {
    if s != AC then HOLD_OFF else if h > 0 then h - 1 else 0
  }

  // The primitive a port in state s transmits.
  function Emits(s: PortState): Primitive
  {
    match s
    case AC => PrimArbFf
    case LR1 => PrimLr
    case LR2 => PrimLrr
    case LR3 => PrimIdle
    case LF1 => PrimOls
    case LF2 => PrimNos
    case OL1 => PrimOls
    case OL2 => PrimLr
    case OL3 => PrimNos
  }

  // ----- fc_state_tx -----

  function StateWord(s: PortState): TxWord
  {
    match s
    case AC => TxWord(CONTROL, ARBFF)
    case LR1 => TxWord(CONTROL, LR)
    case LR2 => TxWord(CONTROL, LRR)
    case LR3 => TxWord(CONTROL, IDLE)
    case LF1 => TxWord(CONTROL, OLS)
    case LF2 => TxWord(CONTROL, NOS)
    case OL1 => TxWord(CONTROL, OLS)
    case OL2 => TxWord(CONTROL, LR)
    case OL3 => TxWord(CONTROL, NOS)
  }

  // A receiver decodes the transmitted word as the primitive its state stands for.
  lemma StateWordSignals(s: PortState)
    ensures Signal(StateWord(s)) == Emits(s)
  {
  }

  // ----- fc_state_rx -----

  class FcStateRx {
    var state: PortState
    var idleHoldOff: nat

    constructor ()
      ensures state == LF2 && idleHoldOff == HOLD_OFF
    {
      state, idleHoldOff := LF2, HOLD_OFF;
    }

    predicate IsActive()
      reads this
    {
      idleHoldOff == 0
    }

    // The combinational next-state block.
    method NextState(p: Primitive) returns (next: PortState)
      ensures next == Next(state, p)
    {
      next := state;
      match p {
        case PrimOls => next := OL2;
        case PrimNos => next := LF1;
        case PrimLr =>
          if state == OL3 || state == LF2 {
            next := LF2;
          } else {
            next := LR2;
          }
        case PrimLrr =>
          match state {
            case LF1 => next := LF1;
            case LF2 => next := LF2;
            case OL1 => next := OL1;
            case OL3 => next := LF2;
            case _ => next := LR3;
          }
        case PrimIdle | PrimArbFf =>
          match state {
            case LR2 => next := AC;
            case LR3 => next := AC;
            case OL3 => next := OL2;
            case _ =>
          }
        case _ =>
      }
    }

    method Clock(reset: bool, word: TxWord)
      modifies this
      ensures state == if reset then LF2 else Next(old(state), Signal(word))
      ensures idleHoldOff == if reset then HOLD_OFF else HoldOff(old(state), old(idleHoldOff))
    {
      var nextState := NextState(MapPrimitive(word.data));
      var holdOff := idleHoldOff;
      if reset {
        holdOff := HOLD_OFF;
      } else if state != AC {
        holdOff := HOLD_OFF;
      } else if idleHoldOff > 0 {
        holdOff := idleHoldOff - 1;
      }
      if reset {
        state := LF2;
      } else if word.datak == CONTROL {
        state := nextState;
      }
      idleHoldOff := holdOff;
    }
  }

  // ----- The port inside the framer -----

  // What the user of the port offers for transmission.
  datatype User = User(valid: bool, data: Word32, sop: bool, eop: bool)

  const QUIET := User(false, 0, false, false)

  function UserWord(u: User): TxWord
  {
    TxWord(if u.sop || u.eop then CONTROL else 0, u.data)
  }

  // The registers of a port.
  datatype Port = Port(
    state: PortState, holdOff: nat,
    cdc1: PortState, cdc2: PortState, xfered: PortState, tx: TxWord)
  {
    predicate Active() {
      holdOff == 0
    }
  }

  function PortStep(p: Port, reset: bool, rx: TxWord, u: User): Port
  {
    Port(if reset then LF2 else Next(p.state, Signal(rx)),
         if reset then HOLD_OFF else HoldOff(p.state, p.holdOff),
         p.state, p.cdc1, p.cdc2,
         if p.Active() && u.valid then UserWord(u) else StateWord(p.xfered))
  }

  class FcPort {
    const rx: FcStateRx
    var cdc1: PortState
    var cdc2: PortState
    var xfered: PortState
    var tx: TxWord

    ghost function View(): Port
      reads this, rx
    {
      Port(rx.state, rx.idleHoldOff, cdc1, cdc2, xfered, tx)
    }

    // The transmit register has no reset value of its own.
    constructor (tx: TxWord)
      ensures fresh(rx)
      ensures View() == Port(LF2, HOLD_OFF, LF2, LF2, LF2, tx)
    {
      this.rx := new FcStateRx();
      cdc1, cdc2, xfered := LF2, LF2, LF2;
      this.tx := tx;
    }

    // One word clock: reset is the receive reset, or the loss of a valid received word.
    method Clock(reset: bool, word: TxWord, user: User)
      modifies this, rx
      ensures View() == PortStep(old(View()), reset, word, user)
    {
      if rx.IsActive() && user.valid {
        tx := UserWord(user);
      } else {
        tx := StateWord(xfered);
      }
      xfered := cdc2;
      cdc2 := cdc1;
      cdc1 := rx.state;
      rx.Clock(reset, word);
    }
  }

  // ----- What a clock does, word by word -----

  // The words that can move a port
  const MOVING: set<Word32> := {0xBC55_BF45, 0xBC35_8A55, 0xBC49_BF49, 0xBC35_BF49, 0xBC95_B5B5, 0xBC94_FFFF}

  // The received word and the state decide the next state.
  lemma StateAfter(p: Port, rx: TxWord, u: User)
    ensures var t := PortStep(p, false, rx, u).state;
            // NOS and OLS move every state,
            && (rx == TxWord(8, 0xBC55_BF45) ==> t == LF1)
            && (rx == TxWord(8, 0xBC35_8A55) ==> t == OL2)
            // LR and LRR do not bring a port out of a failure that only NOS or OLS can end,
            && (rx == TxWord(8, 0xBC49_BF49) ==> t == if p.state in {LF2, OL3} then LF2 else LR2)
            && (rx == TxWord(8, 0xBC35_BF49) ==>
                  t == if p.state in {LF2, OL3} then LF2 else if p.state in {LF1, OL1} then p.state else LR3)
            // a fill word ends the link reset,
            && (rx == TxWord(8, 0xBC95_B5B5) || rx == TxWord(8, 0xBC94_FFFF) ==>
                  t == if p.state in {LR2, LR3} then AC else if p.state == OL3 then OL2 else p.state)
            // and no other word does anything.
            && (rx.datak != 8 || rx.data !in MOVING ==> t == p.state)
    ensures PortStep(p, true, rx, u).state == LF2 && PortStep(p, true, rx, u).holdOff == 6
    ensures PortStep(p, false, rx, u).holdOff ==
            if p.state != AC then 6 else if p.holdOff > 0 then p.holdOff - 1 else 0
  {
  }

  // A port sends its user's word while it has held AC for six clocks, as a control word if that begins or ends a
  // frame, and else the ordered set of the state three registers back.
  lemma WordSent(p: Port, reset: bool, rx: TxWord, u: User)
    ensures var w := PortStep(p, reset, rx, u).tx;
            if p.holdOff == 0 && u.valid then w == TxWord(if u.sop || u.eop then 8 else 0, u.data)
            else
              && w.datak == 8
              && w.data == match p.xfered
                           case AC => 0xBC94_FFFF
                           case LR1 => 0xBC49_BF49
                           case LR2 => 0xBC35_BF49
                           case LR3 => 0xBC95_B5B5
                           case LF1 => 0xBC35_8A55
                           case LF2 => 0xBC55_BF45
                           case OL1 => 0xBC35_8A55
                           case OL2 => 0xBC49_BF49
                           case OL3 => 0xBC55_BF45
    ensures var t := PortStep(p, reset, rx, u);
            t.cdc1 == p.state && t.cdc2 == p.cdc1 && t.xfered == p.cdc2
  {
  }

  // ----- Words sent between entering AC and the first user word -----

  // The words of a run: what is received and offered at each clock.
  datatype PortInput = PortInput(rx: TxWord, user: User)

  function PortRun(p: Port, ins: seq<PortInput>): Port
    decreases |ins|
  {
    if ins == [] then p
    else PortStep(PortRun(p, ins[..|ins| - 1]), false, ins[|ins| - 1].rx, ins[|ins| - 1].user)
  }

  // No word of the run is OLS or NOS.
  predicate NoOlsNos(ins: seq<PortInput>)
  {
    forall i :: 0 <= i < |ins| ==> ins[i].rx != TxWord(8, 0xBC35_8A55) && ins[i].rx != TxWord(8, 0xBC55_BF45)
  }

  // A port that has powered up stays in LF2 until the first OLS or NOS, whatever else it receives.
  lemma {:induction false} DownUntilOlsOrNos(p: Port, ins: seq<PortInput>, i: PortInput)
    requires p.state == LF2 && NoOlsNos(ins)
    ensures PortRun(p, ins).state == LF2
    ensures PortRun(p, ins + [i]).state ==
            if i.rx == TxWord(8, 0xBC35_8A55) then OL2 else if i.rx == TxWord(8, 0xBC55_BF45) then LF1 else LF2
    decreases |ins|
  {
    hide PortStep;
    if ins != [] {
      DownUntilOlsOrNos(p, ins[..|ins| - 1], ins[|ins| - 1]);
      assert ins[..|ins| - 1] + [ins[|ins| - 1]] == ins;
    }
    assert (ins + [i])[..|ins|] == ins;
    StateAfter(PortRun(p, ins), i.rx, i.user);
  }

  // While a port that has just entered AC is kept there, after n clocks its hold-off is 6 - n.
  lemma {:induction false} HoldOffCountsDown(p: Port, ins: seq<PortInput>)
    requires p.state == AC && p.holdOff == HOLD_OFF
    requires forall i :: 0 <= i < |ins| ==> Next(AC, Signal(ins[i].rx)) == AC
    ensures PortRun(p, ins).state == AC
    ensures PortRun(p, ins).holdOff == if |ins| <= HOLD_OFF then HOLD_OFF - |ins| else 0
    ensures |ins| >= 1 ==> PortRun(p, ins).cdc1 == AC
    ensures |ins| >= 2 ==> PortRun(p, ins).cdc2 == AC
    ensures |ins| >= 3 ==> PortRun(p, ins).xfered == AC
    ensures 4 <= |ins| <= HOLD_OFF ==> PortRun(p, ins).tx == StateWord(AC)
    ensures |ins| > HOLD_OFF && !ins[|ins| - 1].user.valid ==> PortRun(p, ins).tx == StateWord(AC)
    ensures |ins| > HOLD_OFF && ins[|ins| - 1].user.valid ==>
              PortRun(p, ins).tx == UserWord(ins[|ins| - 1].user)
    decreases |ins|
  {
    if |ins| > 0 {
      HoldOffCountsDown(p, ins[..|ins| - 1]);
    }
  }

  // The words on the wire, one a clock
  function Wire(p: Port, ins: seq<PortInput>): (ws: seq<TxWord>)
    ensures |ws| == |ins|
    decreases |ins|
  {
    if ins == [] then [] else Wire(p, ins[..|ins| - 1]) + [PortRun(p, ins).tx]
  }

  // The number of consecutive fill words at the end of a sequence of words
  function TrailingFill(ws: seq<TxWord>): nat
  {
    if ws == [] || !IsFill(Signal(ws[|ws| - 1])) then 0 else 1 + TrailingFill(ws[..|ws| - 1])
  }

  lemma TrailingFillAppend(ws: seq<TxWord>, w: TxWord)
    ensures TrailingFill(ws + [w]) == if IsFill(Signal(w)) then 1 + TrailingFill(ws) else 0
  {
    assert (ws + [w])[..|ws|] == ws;
  }

  // What the transfer registers still have to send, oldest first
  function Transferring(p: Port): seq<TxWord>
  {
    [StateWord(p.xfered), StateWord(p.cdc2), StateWord(p.cdc1)]
  }

  lemma {:induction false} RunSplits(p: Port, xs: seq<PortInput>, ys: seq<PortInput>)
    ensures PortRun(p, xs + ys) == PortRun(PortRun(p, xs), ys)
    ensures Wire(p, xs + ys) == Wire(p, xs) + Wire(PortRun(p, xs), ys)
    decreases |ys|
  {
    hide PortStep;
    if ys == [] {
      assert xs + ys == xs;
    } else {
      var front := ys[..|ys| - 1];
      assert (xs + ys)[..|xs + ys| - 1] == xs + front;
      RunSplits(p, xs, front);
    }
  }

  // The first three clocks in AC send what the transfer registers held on entry.
  lemma FirstThreeClocks(p: Port, ins: seq<PortInput>)
    requires p.state == AC && p.holdOff == HOLD_OFF && |ins| == 3
    requires forall i :: 0 <= i < |ins| ==> Next(AC, Signal(ins[i].rx)) == AC
    ensures Wire(p, ins) == Transferring(p)
  {
    HoldOffCountsDown(p, ins[..1]);
    HoldOffCountsDown(p, ins[..2]);
    assert ins[..1][..0] == [] && ins[..2][..1] == ins[..1];
    assert PortRun(p, ins[..1]).tx == StateWord(p.xfered);
    assert PortRun(p, ins[..2]).tx == StateWord(p.cdc2);
    hide HoldOff, StateWord;
    assert Wire(p, ins[..1]) == [StateWord(p.xfered)];
    assert Wire(p, ins[..2]) == [StateWord(p.xfered), StateWord(p.cdc2)];
  }

  // From then on every word is a fill word until a user word is sent.
  lemma {:induction false} FillInActive(past: seq<TxWord>, p: Port, ins: seq<PortInput>)
    requires p.state == AC && p.holdOff == HOLD_OFF && |ins| >= 3
    requires forall i :: 0 <= i < |ins| ==> Next(AC, Signal(ins[i].rx)) == AC
    requires forall i :: HOLD_OFF <= i < |ins| ==> !ins[i].user.valid
    ensures TrailingFill(past + Wire(p, ins)) == |ins| - 3 + TrailingFill(past + Transferring(p))
    decreases |ins|
  {
    if |ins| == 3 {
      FirstThreeClocks(p, ins);
    } else {
      var front := ins[..|ins| - 1];
      FillInActive(past, p, front);
      HoldOffCountsDown(p, ins);
      StateWordSignals(AC);
      TrailingFillAppend(past + Wire(p, front), PortRun(p, ins).tx);
      assert past + Wire(p, ins) == past + Wire(p, front) + [PortRun(p, ins).tx];
    }
  }

  // While a port that has come from a state without fill words is in LR3, its transfer registers and the wire
  // hold one fill word for every clock of it.
  lemma {:induction false} FillFromLr3(past: seq<TxWord>, p: Port, ins: seq<PortInput>)
    requires p.state != AC && p.state != LR3 && ins != []
    requires forall t :: 1 <= t < |ins| ==> PortRun(p, ins[..t]).state == LR3
    ensures TrailingFill(past + Wire(p, ins) + Transferring(PortRun(p, ins))) == |ins| - 1
    ensures PortRun(p, ins).holdOff == HOLD_OFF
    decreases |ins|
  {
    var front, q := ins[..|ins| - 1], PortRun(p, ins[..|ins| - 1]);
    var p' := PortRun(p, ins);
    assert p'.cdc1 == q.state && p'.holdOff == HoldOff(q.state, q.holdOff);
    if |ins| == 1 {
      var w := past + Wire(p, ins) + [StateWord(p'.xfered), StateWord(p'.cdc2)];
      StateWordSignals(p.state);
      assert past + Wire(p, ins) + Transferring(p') == w + [StateWord(p.state)];
      TrailingFillAppend(w, StateWord(p.state));
    } else {
      forall t | 1 <= t < |front|
        ensures PortRun(p, front[..t]).state == LR3
      {
        assert front[..t] == ins[..t];
      }
      FillFromLr3(past, p, front);
      Shifts(past + Wire(p, front), q, ins[|ins| - 1]);
      hide PortRun, TrailingFill;
      assert past + Wire(p, ins) == past + Wire(p, front) + [p'.tx] by {
        assert Wire(p, ins) == Wire(p, front) + [p'.tx];
      }
    }
  }

  // A clock that sends no user word moves the words of the transfer registers one on.
  lemma Shifts(past: seq<TxWord>, p: Port, i: PortInput)
    requires p.state == LR3 && p.holdOff == HOLD_OFF
    ensures var p' := PortStep(p, false, i.rx, i.user);
            && TrailingFill(past + [p'.tx] + Transferring(p')) == 1 + TrailingFill(past + Transferring(p))
            && p'.holdOff == HOLD_OFF
  {
    var p' := PortStep(p, false, i.rx, i.user);
    StateWordSignals(LR3);
    TrailingFillAppend(past + Transferring(p), StateWord(LR3));
    assert past + [p'.tx] + Transferring(p') == past + Transferring(p) + [StateWord(LR3)];
  }

  // The fill words before the first user word are 3 + wait more than those the port had on their
  // way when it entered AC.
  lemma FillWordsOnEntry(past: seq<TxWord>, p: Port, ins: seq<PortInput>, wait: nat)
    requires p.state == AC && p.holdOff == HOLD_OFF
    requires |ins| == HOLD_OFF + wait + 1
    requires forall i :: 0 <= i < |ins| ==> Next(AC, Signal(ins[i].rx)) == AC
    requires forall i :: HOLD_OFF <= i < |ins| - 1 ==> !ins[i].user.valid
    requires ins[|ins| - 1].user.valid
    ensures PortRun(p, ins).tx == UserWord(ins[|ins| - 1].user)
    ensures TrailingFill(past + Wire(p, ins[..|ins| - 1])) == 3 + wait + TrailingFill(past + Transferring(p))
  {
    HoldOffCountsDown(p, ins);
    FillInActive(past, p, ins[..|ins| - 1]);
  }

  // Let a port spend `lr3` clocks in LR3 before it enters AC (none if it comes from LR2), and let the user
  // first offer a word `wait` clocks after the port reports active.  The word follows exactly 3 + wait + lr3
  // fill words: three clocks of the six-clock hold-off, the user's own wait, and the IDLE words of LR3, which
  // are still on their way.  The six fill words the standard asks for are there if and only if the wait and
  // the stay in LR3 make up three clocks.
  lemma FillWordsBeforeUser(past: seq<TxWord>, p: Port, ins: seq<PortInput>, lr3: nat, wait: nat)
    requires p.state != AC && p.state != LR3
    requires |ins| == lr3 + 1 + HOLD_OFF + wait + 1
    requires forall t :: 1 <= t <= lr3 ==> PortRun(p, ins[..t]).state == LR3
    requires PortRun(p, ins[..lr3 + 1]).state == AC
    requires forall i :: lr3 + 1 <= i < |ins| ==> Next(AC, Signal(ins[i].rx)) == AC
    requires forall i :: lr3 + 1 + HOLD_OFF <= i < |ins| - 1 ==> !ins[i].user.valid
    requires ins[|ins| - 1].user.valid
    ensures PortRun(p, ins).tx == UserWord(ins[|ins| - 1].user)
    ensures var fill := TrailingFill(past + Wire(p, ins[..|ins| - 1]));
            fill == 3 + wait + lr3 && (fill >= 6 <==> wait + lr3 >= 3)
  {
    hide *;
    var before, active := ins[..lr3 + 1], ins[lr3 + 1..];
    var q, front := PortRun(p, before), active[..|active| - 1];
    forall t | 1 <= t < |before|
      ensures PortRun(p, before[..t]).state == LR3
    {
      assert before[..t] == ins[..t];
    }
    FillFromLr3(past, p, before);
    FillWordsOnEntry(past + Wire(p, before), q, active, wait);
    assert ins == before + active && ins[..|ins| - 1] == before + front;
    RunSplits(p, before, active);
    RunSplits(p, before, front);
    assert past + Wire(p, before) + Wire(q, front) == past + (Wire(p, before) + Wire(q, front));
  }

  // ----- Two ways up -----

  function Received(w: Word32): PortInput
  {
    PortInput(TxWord(CONTROL, w), QUIET)
  }

  function Idles(n: nat): (ins: seq<PortInput>)
    ensures |ins| == n
  {
    seq(n, _ => Received(IDLE))
  }

  const EAGER := PortInput(TxWord(CONTROL, IDLE), User(true, SOFI3, true, false))

  // A port that OLS, LR and IDLE bring up through LR2 sends three fill words before an eager user.
  lemma ThreeFillWords(past: seq<TxWord>, tx: TxWord)
    ensures var p := PortRun(Port(LF2, HOLD_OFF, LF2, LF2, LF2, tx), [Received(OLS), Received(LR)]);
            p.state == LR2 && PortRun(p, Idles(7) + [EAGER]).tx == UserWord(EAGER.user)
            && TrailingFill(past + Wire(p, Idles(7))) == 3
  {
    var start := Port(LF2, HOLD_OFF, LF2, LF2, LF2, tx);
    assert [Received(OLS), Received(LR)][..1] == [Received(OLS)];
    assert PortRun(start, [Received(OLS)]).state == OL2;
    var p := PortRun(start, [Received(OLS), Received(LR)]);
    var ins := Idles(7) + [EAGER];
    assert ins[..1] == [Received(IDLE)] && ins[..7] == Idles(7);
    assert PortRun(p, ins[..1]).state == AC;
    hide PortRun, TrailingFill, Wire;
    FillWordsBeforeUser(past, p, ins, 0, 0);
  }

  // One that three LRR words keep in LR3 for three clocks sends six.
  lemma SixFillWords(past: seq<TxWord>, tx: TxWord)
    ensures var p := PortRun(Port(LF2, HOLD_OFF, LF2, LF2, LF2, tx), [Received(OLS)]);
            var up := [Received(LRR), Received(LRR), Received(LRR)] + Idles(7);
            p.state == OL2 && PortRun(p, up + [EAGER]).tx == UserWord(EAGER.user)
            && TrailingFill(past + Wire(p, up)) == 6
  {
    var p := PortRun(Port(LF2, HOLD_OFF, LF2, LF2, LF2, tx), [Received(OLS)]);
    var up := [Received(LRR), Received(LRR), Received(LRR)] + Idles(7);
    var ins := up + [EAGER];
    assert p.state == OL2;
    StaysInLr3(p, ins);
    assert ins[..10] == up;
    hide PortRun, TrailingFill, Wire;
    FillWordsBeforeUser(past, p, ins, 3, 0);
  }

  lemma StaysInLr3(p: Port, ins: seq<PortInput>)
    requires p.state == OL2 && |ins| >= 4
    requires (forall i :: 0 <= i < 3 ==> ins[i] == Received(LRR)) && ins[3] == Received(IDLE)
    ensures forall t :: 1 <= t <= 3 ==> PortRun(p, ins[..t]).state == LR3
    ensures PortRun(p, ins[..4]).state == AC
  {
    assert ins[..1][..0] == [] && ins[..2][..1] == ins[..1] && ins[..3][..2] == ins[..2] && ins[..4][..3] == ins[..3];
    assert PortRun(p, ins[..1]).state == LR3;
    assert PortRun(p, ins[..2]).state == LR3;
    assert PortRun(p, ins[..3]).state == LR3;
  }
}
