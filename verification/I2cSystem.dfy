/** The I2C master driver (driver/src/i2c.c) run against the I2C master of the card model
    (driver/qemu-device/i2c.c).

    Each interrupt handler and each FIFO loop runs without preemption.
 */
module I2cSystem {
  import opened Bits
  import opened I2cProtocol

  // ----- The device -----

  datatype Irq = RxOverflow | ArbLost | Nack | RxReady | TxReady

  const DATA_SIZE: nat := 256

  // An offset of eight bits
  function Wrap(x: nat): Byte
  {
    x % 256
  }

  // It wraps the same way step by step and at once.
  lemma WrapStep(x: nat)
    ensures Wrap(Wrap(x) + 1) == Wrap(x + 1)
  {
  }

  lemma WrapByte(x: Byte)
    ensures Wrap(x) == x
  {
  }

  class AvalonI2c {
    const data: seq<Byte>
    var enable: bool
    var readOff: Byte
    var fifoLevel: nat
    var isWriting: bool
    var rxIntr: bool
    var txIntr: bool
    // an interrupt has been raised and not yet handled
    var pending: bool
    ghost var commands: seq<nat>

    ghost predicate Valid()
      reads this
    {
      |data| == DATA_SIZE
    }

    constructor (data: seq<Byte>)
      requires |data| == 256
      ensures Valid() && this.data == data && !pending && commands == []
    {
      this.data := data;
      enable, readOff, fifoLevel, isWriting := false, 0, 0, false;
      rxIntr, txIntr, pending, commands := false, false, false, [];
    }

    // The bytes in the receive FIFO
    ghost function Received(): (rx: seq<Byte>)
      requires Valid()
      reads this
      ensures |rx| == fifoLevel
    {
      var n, off := fifoLevel, readOff;
      seq(n, i requires 0 <= i < n => data[Wrap(off + i)])
    }

    // REG_RX: reading an empty FIFO changes nothing; the offset wraps at eight bits.
    method ReadRx() returns (val: Byte)
      requires Valid()
      modifies this`fifoLevel, this`readOff
      ensures if old(fifoLevel) == 0 then val == 0 && fifoLevel == 0 && readOff == old(readOff)
              else val == data[old(readOff)] && fifoLevel == old(fifoLevel) - 1 && readOff == Wrap(old(readOff) + 1)
    {
      if fifoLevel == 0 {
        return 0;
      }
      fifoLevel := fifoLevel - 1;
      val := data[readOff];
      readOff := Wrap(readOff + 1);
    }

    // REG_TX: a START sets the direction; otherwise a byte sets the offset or asks for a byte.
    method WriteTx(val: nat)
      modifies this`isWriting, this`readOff, this`fifoLevel, this`pending, this`commands
      ensures commands == old(commands) + [val]
      ensures val / 512 % 2 == 1 ==>
                isWriting == (val % 2 == 0) &&
                readOff == old(readOff) && fifoLevel == old(fifoLevel) && pending == old(pending)
      ensures val / 512 % 2 == 0 && old(isWriting) ==>
                isWriting && readOff == Wrap(val) && fifoLevel == old(fifoLevel) &&
                pending == (old(pending) || (enable && txIntr))
      ensures val / 512 % 2 == 0 && !old(isWriting) ==>
                !isWriting && readOff == old(readOff) && fifoLevel == old(fifoLevel) + 1 &&
                pending == (old(pending) || (enable && rxIntr))
    {
      if val / 512 % 2 == 1 {
        isWriting := val % 2 == 0;
      } else if isWriting {
        readOff := Wrap(val);
        if enable && txIntr {
          pending := true;
        }
      } else {
        fifoLevel := fifoLevel + 1;
        if enable && rxIntr {
          pending := true;
        }
      }
      commands := commands + [val];
    }

    // REG_CTRL
    function ReadCtrl(): nat
      reads this
    {
      if enable then 1 else 0
    }

    method WriteCtrl(val: nat)
      modifies this`enable, this`fifoLevel
      ensures enable == (if val == 0 then false else if val == 1 then true else old(enable))
      ensures fifoLevel == if val == 1 then 0 else old(fifoLevel)
      ensures val < 2 ==> ReadCtrl() == val
    {
      if val == 0 {
        enable := false;
      } else if val == 1 {
        enable := true;
        fifoLevel := 0;
      }
    }

    // REG_ISER: the model knows two of the interrupts.
    function ReadIser(): set<Irq>
      reads this
    {
      (if rxIntr then {RxReady} else {}) + (if txIntr then {TxReady} else {})
    }

    method WriteIser(val: set<Irq>)
      modifies this`rxIntr, this`txIntr
      ensures rxIntr == (RxReady in val) && txIntr == (TxReady in val)
    {
      txIntr := TxReady in val;
      rxIntr := RxReady in val;
    }

    // REG_ISR: the transmitter is always ready.
    function ReadIsr(): set<Irq>
      reads this
    {
      (if fifoLevel > 0 then {RxReady} else {}) + {TxReady}
    }

    // REG_TX_LVL: there is always room for commands.
    function ReadTxLevel(): nat
    {
      0
    }

    function ReadRxLevel(): nat
      reads this
    {
      fifoLevel
    }
  }

  // ----- The driver -----

  const ALL_IRQ: set<Irq> := {RxOverflow, ArbLost, Nack, RxReady, TxReady}

  const ERROR_IRQ: set<Irq> := {RxOverflow, ArbLost, Nack}

  const EAGAIN: int := 11
  const ENXIO: int := 6
  const ETIMEDOUT: int := 110

  // buf is both the message a write sends and the buffer a read fills.
  datatype Message = Message(address: nat, read: bool, buf: array<Byte>)

  // What the handler makes of a message, by the interrupt that woke it, before it may finish the message
  function Handled(x: I2cProtocol.Transfer, status: set<Irq>, txLevel: nat, rx: seq<Byte>): I2cProtocol.Transfer
  {
    var drained := Drain(x, rx[..Min(|rx|, Left(x))]);
    if ArbLost in status then x
    else if Nack in status then x.(commands := x.commands + [STOP])
    else if x.read && RxOverflow in status then drained.(commands := drained.commands + [STOP])
    else if x.read && RxReady in status then drained
    else if !x.read && TxReady in status && Left(x) > 0 then FillAll(x, txLevel)
    else x
  }

  // An error finishes the message, and an overflow does without leaving one.
  predicate Finishes(x: I2cProtocol.Transfer, status: set<Irq>, rx: seq<Byte>)
  {
    if ArbLost in status || Nack in status || (x.read && RxOverflow in status) then true
    else if x.read && RxReady in status then |rx| >= Left(x)
    else !x.read && TxReady in status && Left(x) == 0
  }

  function AfterIsr(x: I2cProtocol.Transfer, status: set<Irq>, txLevel: nat, rx: seq<Byte>): I2cProtocol.Transfer
  {
    var y := Handled(x, status, txLevel, rx);
    if Finishes(x, status, rx) then y.(completed := 1) else y
  }

  // Without an error the handler is that of the protocol.
  lemma AfterIsrIs(x: I2cProtocol.Transfer, status: set<Irq>, i: Interrupt)
    requires status !! ERROR_IRQ && x.completed == 0
    requires if x.read then RxReady in status && i.rx != [] else TxReady in status
    ensures AfterIsr(x, status, i.txLevel, i.rx) == I2cProtocol.Isr(x, i)
  {
    DrainKeeps(x, i.rx[..Min(|i.rx|, Left(x))]);
    hide Drain, FillAll;
  }

  lemma {:induction false} DrainKeeps(x: I2cProtocol.Transfer, bytes: seq<Byte>)
    requires |bytes| <= Left(x)
    ensures Drain(x, bytes).completed == x.completed && Drain(x, bytes).read == x.read
    ensures Drain(x, bytes).pos == x.pos + |bytes| && Drain(x, bytes).msg == x.msg
    decreases |bytes|
  {
    hide Command;
    if bytes != [] {
      DrainKeeps(DrainOne(x, bytes[0]), bytes[1..]);
    }
  }

  // An overflow completes the message; its bytes are all there if and only if the FIFO held what was left.
  lemma OverflowShortens(x: I2cProtocol.Transfer, status: set<Irq>, txLevel: nat, rx: seq<Byte>)
    requires x.read && RxOverflow in status && ArbLost !in status && Nack !in status && x.pos <= |x.msg|
    ensures var y := AfterIsr(x, status, txLevel, rx);
            && y.completed == 1 && y.commands != [] && y.commands[|y.commands| - 1] == 0x100
            && y.got == Drain(x, rx[..Min(|rx|, Left(x))]).got
            && (y.pos == |x.msg| <==> |rx| >= Left(x))
  {
    DrainKeeps(x, rx[..Min(|rx|, Left(x))]);
    hide Drain, FillAll;
  }

  // A lost arbitration completes the message with nothing more sent or received, whatever else is pending, and a
  // missing acknowledge with a STOP.
  lemma ErrorsComplete(x: I2cProtocol.Transfer, status: set<Irq>, txLevel: nat, rx: seq<Byte>)
    ensures ArbLost in status ==> AfterIsr(x, status, txLevel, rx) == x.(completed := 1)
    ensures Nack in status && ArbLost !in status ==>
              AfterIsr(x, status, txLevel, rx) == x.(commands := x.commands + [0x100], completed := 1)
  {
    hide Drain, FillAll;
  }

  // The interrupt of one received byte
  lemma OneByte(x: I2cProtocol.Transfer, i: Interrupt)
    requires x.read && x.completed == 0 && |i.rx| == 1 && Left(x) > 0
    ensures var y := I2cProtocol.Isr(x, i);
            && y.pos == x.pos + 1 && y.got == x.got + i.rx && (y.completed > 0 <==> Left(x) == 1)
            && |y.commands| == |x.commands| + (if Left(x) > 1 then 1 else 0)
  {
    hide Command;
    assert i.rx[..1] == i.rx && i.rx[1..] == [];
    assert Drain(x, i.rx) == DrainOne(x, i.rx[0]);
  }

  // The interrupt of room for commands
  lemma RoomMade(x: I2cProtocol.Transfer, i: Interrupt)
    requires !x.read && x.completed == 0 && x.pos <= |x.msg| && i.txLevel < FIFO_SIZE
    ensures var y := I2cProtocol.Isr(x, i);
            && x.pos <= y.pos <= |x.msg| && (Left(x) > 0 ==> y.pos > x.pos)
            && (y.completed > 0 <==> Left(x) == 0) && (Left(x) == 0 ==> y.pos == x.pos)
  {
    FillIsMarked(x, Min(FIFO_SIZE - i.txLevel, Left(x)));
    hide Command, Fill, Marked;
  }

  lemma BeginFacts(address: nat, read: bool, content: seq<Byte>)
    requires address < 128
    ensures var x := Begin(address, read, content, 0);
            && (content != [] ==> Proper(x, address))
            && (read && content != [] ==> Outstanding(x) == 1)
            && (!read ==> x.pos == Min(FIFO_SIZE, |content|))
  {
    if content != [] {
      BeginIsProper(address, read, content, 0);
    }
    hide Or, Command;
    var x0 := I2cProtocol.Transfer(read, content, 0, [Or(START, AddressByte(address, read))], [], 0);
    FillIsMarked(x0, Min(FIFO_SIZE, |content|));
    hide Fill, Proper;
  }

  // An empty message is its address alone.
  lemma EmptyRun(address: nat, read: bool)
    requires address < 128
    ensures var x := Begin(address, read, [], 0);
            I2cProtocol.Run(x, []) == x && x.commands == [Or(START, AddressByte(address, read))] && x.completed == 0
  {
    hide Or, Command;
  }

  class I2cDev {
    const base: AvalonI2c
    var msg: Message
    var msgLen: nat
    var msgErr: int
    var pos: nat
    var complete: bool
    var isrMask: set<Irq>
    var isrStatus: set<Irq>
    // how many commands the device had been given when the message began
    ghost var before: nat

    constructor (base: AvalonI2c, msg: Message)
      ensures this.base == base
    {
      this.base := base;
      this.msg := msg;
      before := 0;
      msgLen, msgErr, pos, complete := 0, 0, 0, false;
      isrMask, isrStatus := {}, {};
    }

    // pos bytes of the buffer are dealt with.
    ghost predicate Valid()
      reads this, base
    {
      && base.Valid()
      && pos + msgLen == msg.buf.Length
      && msg.address < 128
      && before <= |base.commands|
    }

    // The message as the protocol sees it
    ghost function Abstract(): I2cProtocol.Transfer
      requires Valid()
      reads this, base, msg.buf
    {
      I2cProtocol.Transfer(msg.read, if msg.read then Zeros(msg.buf.Length) else msg.buf[..], pos,
                           base.commands[before..], if msg.read then msg.buf[..pos] else [], if complete then 1 else 0)
    }

    // The commands of the current message
    ghost function Stream(): (cs: seq<nat>)
      reads this`msg, msg.buf
      ensures |cs| == msg.buf.Length
    {
      Marked(if msg.read then Zeros(msg.buf.Length) else msg.buf[..])
    }

    method IntEnable(mask: set<Irq>, on: bool)
      modifies this`isrMask, base`rxIntr, base`txIntr
      ensures isrMask == if on then old(base.ReadIser()) + mask else old(base.ReadIser()) - mask
      ensures base.rxIntr == (RxReady in isrMask) && base.txIntr == (TxReady in isrMask)
    {
      var intEn := base.ReadIser();
      if on {
        isrMask := intEn + mask;
      } else {
        isrMask := intEn - mask;
      }
      base.WriteIser(isrMask);
    }

    method CoreDisable()
      modifies base`enable, base`fifoLevel
      ensures !base.enable && base.fifoLevel == old(base.fifoLevel)
    {
      var tmp := base.ReadCtrl();
      base.WriteCtrl(tmp / 2 * 2);
    }

    method CoreEnable()
      modifies base`enable, base`fifoLevel
      ensures base.enable && base.fifoLevel == 0
    {
      var tmp := base.ReadCtrl();
      base.WriteCtrl(tmp / 2 * 2 + 1);
    }

    // altr_i2c_transfer: STOP goes with the last byte; with no byte left nothing is written.
    method Transfer(data: Byte)
      requires Valid()
      modifies base`isWriting, base`readOff, base`fifoLevel, base`pending, base`commands
      ensures base.isWriting == old(base.isWriting)
      ensures msgLen == 0 ==>
                base.commands == old(base.commands) && base.readOff == old(base.readOff) &&
                base.fifoLevel == old(base.fifoLevel) && base.pending == old(base.pending)
      ensures msgLen > 0 ==> base.commands == old(base.commands) + [Command(data, msgLen)]
      ensures msgLen > 0 && base.isWriting ==>
                base.readOff == data && base.fifoLevel == old(base.fifoLevel) &&
                base.pending == (old(base.pending) || (base.enable && base.txIntr))
      ensures msgLen > 0 && !base.isWriting ==>
                base.readOff == old(base.readOff) && base.fifoLevel == old(base.fifoLevel) + 1 &&
                base.pending == (old(base.pending) || (base.enable && base.rxIntr))
    {
      CommandDecodes(data, msgLen);
      var word: nat := data;
      if msgLen == 1 {
        word := Or(word, STOP);
      }
      hide Or;
      if msgLen > 0 {
        base.WriteTx(word);
      }
    }

    // One byte from the receive FIFO, and the command for the next unless it was the last.
    method TakeByte()
      requires Valid() && msg.read && !base.isWriting && msgLen > 0 && base.fifoLevel > 0
      modifies this`pos, this`msgLen, msg.buf
      modifies base`isWriting, base`readOff, base`fifoLevel, base`pending, base`commands
      ensures Valid() && !base.isWriting && pos == old(pos) + 1
      ensures Abstract() == DrainOne(old(Abstract()), base.data[old(base.readOff)])
      ensures forall i :: 0 <= i < msg.buf.Length && i != old(pos) ==> msg.buf[i] == old(msg.buf[i])
      ensures base.readOff == Wrap(old(base.readOff) + 1)
      ensures base.commands == old(base.commands) + (if msgLen > 0 then [Command(0, msgLen)] else [])
      ensures base.fifoLevel == old(base.fifoLevel) - if msgLen > 0 then 0 else 1
      ensures base.pending == (old(base.pending) || (msgLen > 0 && base.enable && base.rxIntr))
    {
      hide Command, Wrap, Zeros;
      ghost var x := Abstract();
      msg.buf[pos] := base.ReadRx();
      pos := pos + 1;
      msgLen := msgLen - 1;
      Transfer(0);
      assert msg.buf[..pos] == x.got + [msg.buf[pos - 1]];
      assert base.commands[before..] == x.commands + (if msgLen > 0 then [Command(0, msgLen)] else []);
    }

    // k of the bytes rx have been taken since the message was x, the device stood at `off` and had been given
    // the commands `sent`.
    ghost predicate Emptied(x: I2cProtocol.Transfer, rx: seq<Byte>, off: Byte, sent: seq<nat>, pending: bool, k: nat)
      reads this, base, msg.buf
    {
      && Valid() && msg.read && !base.isWriting && k <= |rx| && k <= Left(x)
      && Abstract() == Drain(x, rx[..k])
      && base.readOff == Wrap(off + k)
      && sent <= base.commands && base.fifoLevel == |rx| - k + (|base.commands| - |sent|)
      && base.pending == (pending || (|base.commands| > |sent| && base.enable && base.rxIntr))
    }

    method TakeNext(ghost x: I2cProtocol.Transfer, ghost rx: seq<Byte>, ghost off: Byte, ghost sent: seq<nat>,
                    ghost pending: bool, ghost k: nat)
      requires Emptied(x, rx, off, sent, pending, k) && k < |rx| && k < Left(x) && rx[k] == base.data[Wrap(off + k)]
      modifies this`pos, this`msgLen, msg.buf
      modifies base`isWriting, base`readOff, base`fifoLevel, base`pending, base`commands
      ensures Emptied(x, rx, off, sent, pending, k + 1) && pos == old(pos) + 1
      ensures forall i :: 0 <= i < msg.buf.Length && i != old(pos) ==> msg.buf[i] == old(msg.buf[i])
    {
      assert rx[..k + 1] == rx[..k] + [rx[k]];
      DrainAppend(x, rx[..k], rx[k]);
      WrapStep(off + k);
      assert Left(Abstract()) == msgLen;
      hide Command, Drain, DrainOne, Wrap, Zeros;
      TakeByte();
    }

    lemma NoneTaken()
      requires Valid() && msg.read && !base.isWriting
      ensures var rx := base.Received();
              && (forall i :: 0 <= i < |rx| ==> rx[i] == base.data[Wrap(base.readOff + i)])
              && Left(Abstract()) == msgLen && |rx| == base.fifoLevel
              && Emptied(Abstract(), rx, base.readOff, base.commands, base.pending, 0)
    {
      WrapByte(base.readOff);
      assert Drain(Abstract(), base.Received()[..0]) == Abstract();
    }

    // As many bytes as the receive FIFO holds and the message still wants
    method EmptyRxFifo()
      requires Valid() && msg.read && !base.isWriting
      modifies this`pos, this`msgLen, msg.buf
      modifies base`isWriting, base`readOff, base`fifoLevel, base`pending, base`commands
      ensures pos == old(pos) + Min(old(base.fifoLevel), old(msgLen))
      ensures Emptied(old(Abstract()), old(base.Received()), old(base.readOff), old(base.commands), old(base.pending),
                      Min(old(base.fifoLevel), old(msgLen)))
      ensures forall i :: 0 <= i < msg.buf.Length && !(old(pos) <= i < pos) ==> msg.buf[i] == old(msg.buf[i])
    {
      hide Emptied, Drain, Wrap, Left, Abstract, AvalonI2c.Received;
      NoneTaken();
      ghost var x, rx, was := Abstract(), base.Received(), pos;
      ghost var off, sent, pending := base.readOff, base.commands, base.pending;
      var rxFifoAvail := base.ReadRxLevel();
      var bytesToTransfer := Min(rxFifoAvail, msgLen);
      ghost var n := bytesToTransfer;
      while bytesToTransfer > 0
        invariant 0 <= bytesToTransfer <= n && pos == was + (n - bytesToTransfer)
        invariant Emptied(x, rx, off, sent, pending, n - bytesToTransfer)
        invariant forall i :: 0 <= i < msg.buf.Length && !(was <= i < pos) ==> msg.buf[i] == old(msg.buf[i])
      {
        bytesToTransfer := bytesToTransfer - 1;
        TakeNext(x, rx, off, sent, pending, pos - was);
      }
    }

    // A write sends the bytes of its buffer.
    lemma StreamWrites(i: nat)
      requires !msg.read && i < msg.buf.Length
      ensures Stream()[i] == Command(msg.buf[i], msg.buf.Length - i)
    {
    }

    // The next byte of a write
    method SendByte()
      requires Valid() && !msg.read && base.isWriting && msgLen > 0
      modifies this`pos, this`msgLen
      modifies base`isWriting, base`readOff, base`fifoLevel, base`pending, base`commands
      ensures Valid() && base.isWriting && pos == old(pos) + 1
      ensures base.commands == old(base.commands) + [Stream()[old(pos)]]
      ensures base.readOff == msg.buf[old(pos)]
      ensures base.pending == (old(base.pending) || (base.enable && base.txIntr))
    {
      hide Stream, Command;
      StreamWrites(pos);
      Transfer(msg.buf[pos]);
      pos := pos + 1;
      msgLen := msgLen - 1;
    }

    // As many bytes as the transfer FIFO has room for, in order
    method FillTxFifo() returns (left: nat)
      requires Valid() && !msg.read && base.isWriting
      modifies this`pos, this`msgLen
      modifies base`isWriting, base`readOff, base`fifoLevel, base`pending, base`commands
      ensures Valid() && base.isWriting && left == msgLen
      ensures pos == old(pos) + Min(64, old(msgLen))
      ensures base.commands == old(base.commands) + Stream()[old(pos)..pos]
      ensures base.readOff == if pos > old(pos) then msg.buf[pos - 1] else old(base.readOff)
      ensures base.pending == (old(base.pending) || (pos > old(pos) && base.enable && base.txIntr))
    {
      hide Stream;
      ghost var stream, from := Stream(), pos;
      var txFifoAvail := FIFO_SIZE - base.ReadTxLevel();
      var bytesToTransfer := Min(txFifoAvail, msgLen);
      left := msgLen - bytesToTransfer;
      while bytesToTransfer > 0
        invariant Valid() && base.isWriting && stream == Stream()
        invariant from <= pos && msgLen == left + bytesToTransfer
        invariant base.commands == old(base.commands) + stream[from..pos]
        invariant base.readOff == if pos > from then msg.buf[pos - 1] else old(base.readOff)
        invariant base.pending == (old(base.pending) || (pos > from && base.enable && base.txIntr))
      {
        bytesToTransfer := bytesToTransfer - 1;
        OneMore(stream, from, pos);
        SendByte();
      }
    }

    lemma FillIs()
      requires Valid() && !msg.read
      ensures var to := pos + Min(64, msgLen);
              FillAll(Abstract(), 0) ==
                Abstract().(pos := to, commands := Abstract().commands + Stream()[pos..to])
    {
      FillIsMarked(Abstract(), Min(FIFO_SIZE, msgLen));
      hide Fill, Marked;
    }

    // That is what the protocol's fill does.
    method FillMessage()
      requires Valid() && !msg.read && base.isWriting
      modifies this`pos, this`msgLen
      modifies base`isWriting, base`readOff, base`fifoLevel, base`pending, base`commands
      ensures Valid() && base.isWriting && old(base.commands) <= base.commands
      ensures pos == old(pos) + Min(64, old(msgLen))
      ensures Abstract() == FillAll(old(Abstract()), base.ReadTxLevel())
      ensures base.readOff == if pos > old(pos) then msg.buf[pos - 1] else old(base.readOff)
      ensures base.pending == (old(base.pending) || (pos > old(pos) && base.enable && base.txIntr))
    {
      ghost var x, stream, from := Abstract(), Stream(), pos;
      FillIs();
      ghost var sent := base.commands;
      hide Stream, Fill, FillAll, Zeros, Marked;
      var _ := FillTxFifo();
      Tail(sent, stream[from..pos], before);
    }

    // Of the pending interrupts, only those enabled wake the handler.
    method IsrQuick() returns (wake: bool)
      modifies this`isrStatus
      ensures isrStatus == (if base.fifoLevel > 0 then {RxReady, TxReady} else {TxReady}) * isrMask
      ensures wake <==> isrStatus != {}
    {
      isrStatus := base.ReadIsr() * isrMask;
      wake := isrStatus != {};
    }

    // Mask everything and complete the message.
    method Finish()
      modifies this`isrMask, this`complete, base`rxIntr, base`txIntr
      ensures complete && isrMask == {} && !base.rxIntr && !base.txIntr
    {
      IntEnable(ALL_IRQ, false);
      complete := true;
    }

    // What the device does while a handler without an error takes n bytes from it
    ghost predicate ReadDevice(off: Byte, level: nat, sent: seq<nat>, pending: bool, n: nat)
      reads base
    {
      && base.readOff == Wrap(off + n)
      && |base.commands| >= |sent| && base.fifoLevel == level - n + (|base.commands| - |sent|)
      && base.pending == (pending || (|base.commands| > |sent| && base.enable && base.rxIntr))
    }

    // The handler on a receive interrupt
    method HandleReceive()
      requires Valid() && msg.read && !base.isWriting
      modifies this`pos, this`msgLen, msg.buf
      modifies base`isWriting, base`readOff, base`fifoLevel, base`pending, base`commands
      ensures Valid() && !base.isWriting && old(base.commands) <= base.commands
      ensures pos == old(pos) + Min(old(base.fifoLevel), old(msgLen))
      ensures Abstract() == Drain(old(Abstract()), old(base.Received())[..Min(old(base.fifoLevel), old(msgLen))])
      ensures ReadDevice(old(base.readOff), old(base.fifoLevel), old(base.commands), old(base.pending),
                         Min(old(base.fifoLevel), old(msgLen)))
      ensures forall i :: 0 <= i < msg.buf.Length && !(old(pos) <= i < pos) ==> msg.buf[i] == old(msg.buf[i])
    {
      hide Drain, Wrap, Zeros;
      EmptyRxFifo();
    }

    // A STOP command of its own
    method Stop()
      requires Valid()
      modifies base`isWriting, base`readOff, base`fifoLevel, base`pending, base`commands
      ensures Valid() && base.isWriting == old(base.isWriting) && old(base.commands) <= base.commands
      ensures Abstract() == old(Abstract()).(commands := old(Abstract()).commands + [STOP])
    {
      ghost var sent := base.commands;
      hide Zeros;
      base.WriteTx(STOP);
      Tail(sent, [STOP], before);
    }

    // The handler up to the point where it may finish the message
    method Handle() returns (finish: bool)
      requires Valid() && base.isWriting == !msg.read
      modifies this`pos, this`msgLen, this`msgErr, msg.buf
      modifies base`isWriting, base`readOff, base`fifoLevel, base`pending, base`commands
      ensures Valid() && base.isWriting == !msg.read && old(base.commands) <= base.commands && pos >= old(pos)
      ensures Abstract() == Handled(old(Abstract()), isrStatus, base.ReadTxLevel(), old(base.Received()))
      ensures finish == Finishes(old(Abstract()), isrStatus, old(base.Received()))
      ensures msgErr == if ArbLost in isrStatus then -11 else if Nack in isrStatus then -6 else old(msgErr)
      ensures forall i :: 0 <= i < msg.buf.Length && !(msg.read && old(pos) <= i < pos) ==>
                msg.buf[i] == old(msg.buf[i])
      ensures isrStatus !! ERROR_IRQ && msg.read ==>
                ReadDevice(old(base.readOff), old(base.fifoLevel), old(base.commands), old(base.pending),
                           pos - old(pos))
      ensures isrStatus !! ERROR_IRQ && !msg.read ==>
                && base.readOff == (if pos > old(pos) then msg.buf[pos - 1] else old(base.readOff))
                && base.pending == (old(base.pending) || (pos > old(pos) && base.enable && base.txIntr))
    {
      WrapByte(base.readOff);
      assert Left(Abstract()) == msgLen;
      hide Drain, FillAll, Zeros, Wrap, Left;
      finish := false;
      if ArbLost in isrStatus {
        msgErr := -EAGAIN;
        finish := true;
      } else if Nack in isrStatus {
        msgErr := -ENXIO;
        Stop();
        finish := true;
      } else if msg.read && RxOverflow in isrStatus {
        HandleReceive();
        Stop();
        finish := true;
      } else if msg.read && RxReady in isrStatus {
        HandleReceive();
        if msgLen == 0 {
          finish := true;
        }
      } else if !msg.read && TxReady in isrStatus {
        if msgLen > 0 {
          FillMessage();
        } else {
          finish := true;
        }
      }
    }

    // The threaded handler
    method Isr()
      requires Valid() && base.isWriting == !msg.read
      modifies this`pos, this`msgLen, this`msgErr, this`isrMask, this`complete, msg.buf
      modifies base`isWriting, base`readOff, base`fifoLevel, base`pending, base`commands, base`rxIntr, base`txIntr
      ensures Valid() && base.isWriting == !msg.read && old(base.commands) <= base.commands && pos >= old(pos)
      ensures Abstract() == AfterIsr(old(Abstract()), isrStatus, base.ReadTxLevel(), old(base.Received()))
      ensures msgErr == if ArbLost in isrStatus then -11 else if Nack in isrStatus then -6 else old(msgErr)
      ensures forall i :: 0 <= i < msg.buf.Length && !(msg.read && old(pos) <= i < pos) ==>
                msg.buf[i] == old(msg.buf[i])
      // what the device does meanwhile
      ensures isrStatus !! ERROR_IRQ && msg.read ==>
                && base.readOff == Wrap(old(base.readOff) + (pos - old(pos)))
                && base.fifoLevel == old(base.fifoLevel) - (pos - old(pos)) + (|base.commands| - |old(base.commands)|)
                && base.pending == (old(base.pending) ||
                                    (|base.commands| > |old(base.commands)| && base.enable && old(base.rxIntr)))
      ensures isrStatus !! ERROR_IRQ && !msg.read ==>
                && base.readOff == (if pos > old(pos) then msg.buf[pos - 1] else old(base.readOff))
                && base.pending == (old(base.pending) || (pos > old(pos) && base.enable && old(base.txIntr)))
      ensures complete && !old(complete) ==> isrMask == {} && !base.rxIntr && !base.txIntr
      ensures !complete ==>
                isrMask == old(isrMask) && base.rxIntr == old(base.rxIntr) && base.txIntr == old(base.txIntr)
    {
      hide Handled, Finishes, Zeros, Wrap;
      var finish := Handle();
      if finish {
        Finish();
      }
    }

    // ----- One message -----

    // The state between interrupts: `start` is the offset the device had, and `earlier` the commands it had
    // been given, when the message began.
    ghost predicate Running(start: Byte, earlier: seq<nat>)
      reads this, base, msg.buf
    {
      && Valid() && base.isWriting == !msg.read && base.enable && msgErr == 0 && msg.buf.Length > 0
      && base.commands[..before] == earlier
      && Proper(Abstract(), msg.address)
      && (complete ==> !base.pending && isrMask == {} && !base.rxIntr && !base.txIntr)
      && (!complete ==>
            && base.pending
            && (if msg.read then base.rxIntr && RxReady in isrMask else base.txIntr && TxReady in isrMask))
      && if msg.read then ReadRunning(start) else WriteRunning()
    }

    // Every byte so far came from its place in the memory of the device, and the next is asked for.
    ghost predicate ReadRunning(start: Byte)
      requires Valid()
      reads this, base, msg.buf
    {
      && base.readOff == Wrap(start + pos)
      && (forall i :: 0 <= i < pos ==> msg.buf[i] == base.data[Wrap(start + i)])
      && (!complete ==> msgLen > 0 && base.fifoLevel == Outstanding(Abstract()) == 1)
    }

    // Every byte so far has been sent, and the device points at the last.
    ghost predicate WriteRunning()
      requires Valid()
      reads this, base, msg.buf
    {
      pos > 0 && base.readOff == msg.buf[pos - 1]
    }

    // One interrupt, from the device to the end of its thread, is one step of the protocol.
    method HandleInterrupt(ghost start: Byte, ghost earlier: seq<nat>) returns (ghost irq: Interrupt)
      requires Running(start, earlier) && !complete
      modifies this`pos, this`msgLen, this`msgErr, this`isrMask, this`isrStatus, this`complete, msg.buf
      modifies base`isWriting, base`readOff, base`fifoLevel, base`pending, base`commands, base`rxIntr, base`txIntr
      ensures Running(start, earlier)
      ensures Abstract() == I2cProtocol.Isr(old(Abstract()), irq) && Useful(old(Abstract()), irq)
      ensures msgLen <= old(msgLen)
      ensures msg.read ==> |irq.rx| <= Outstanding(old(Abstract()))
      ensures msgLen < old(msgLen) || complete
      ensures !msg.read ==> msg.buf[..] == old(msg.buf[..])
    {
      base.pending := false;
      irq := Interrupt(base.ReadTxLevel(), base.Received());
      if msg.read {
        HandleByte(start, earlier);
      } else {
        HandleRoom(earlier);
      }
    }

    // The interrupt of a received byte
    method HandleByte(ghost start: Byte, ghost earlier: seq<nat>)
      requires Valid() && msg.read && !base.isWriting && base.enable && msgErr == 0 && !complete
      requires msg.buf.Length > 0 && base.commands[..before] == earlier && Proper(Abstract(), msg.address)
      requires base.rxIntr && RxReady in isrMask && !base.pending
      requires ReadRunning(start)
      modifies this`pos, this`msgLen, this`msgErr, this`isrMask, this`isrStatus, this`complete, msg.buf
      modifies base`isWriting, base`readOff, base`fifoLevel, base`pending, base`commands, base`rxIntr, base`txIntr
      ensures Running(start, earlier)
      ensures Abstract() == I2cProtocol.Isr(old(Abstract()), Interrupt(base.ReadTxLevel(), old(base.Received())))
      ensures msgLen < old(msgLen)
    {
      ghost var x, rx, was := Abstract(), base.Received(), pos;
      ghost var irq := Interrupt(base.ReadTxLevel(), rx);
      OneByte(x, irq);
      IsrKeepsProper(x, irq, msg.address);
      WrapStep(start + pos);
      var wake := IsrQuick();
      AfterIsrIs(x, isrStatus, irq);
      hide Proper, I2cProtocol.Isr, AfterIsr, Wrap, Zeros, Outstanding;
      Isr();
    }

    // The interrupt of room in the transfer FIFO
    method HandleRoom(ghost earlier: seq<nat>)
      requires Valid() && !msg.read && base.isWriting && base.enable && msgErr == 0 && !complete
      requires msg.buf.Length > 0 && base.commands[..before] == earlier && Proper(Abstract(), msg.address)
      requires base.txIntr && TxReady in isrMask && !base.pending
      requires WriteRunning()
      modifies this`pos, this`msgLen, this`msgErr, this`isrMask, this`isrStatus, this`complete, msg.buf
      modifies base`isWriting, base`readOff, base`fifoLevel, base`pending, base`commands, base`rxIntr, base`txIntr
      ensures forall start: Byte :: Running(start, earlier)
      ensures Abstract() == I2cProtocol.Isr(old(Abstract()), Interrupt(base.ReadTxLevel(), old(base.Received())))
      ensures msgLen < old(msgLen) || (complete && msgLen == old(msgLen))
      ensures msg.buf[..] == old(msg.buf[..])
    {
      ghost var x := Abstract();
      ghost var irq := Interrupt(base.ReadTxLevel(), base.Received());
      IsrKeepsProper(x, irq, msg.address);
      RoomMade(x, irq);
      var wake := IsrQuick();
      AfterIsrIs(x, isrStatus, irq);
      hide Proper, I2cProtocol.Isr, AfterIsr, Zeros, Outstanding;
      Isr();
    }

    // Discard whatever the receive FIFO holds; the device moves on by as many bytes.
    method FlushRxFifo()
      requires base.Valid()
      modifies base`fifoLevel, base`readOff
      ensures base.fifoLevel == 0 && base.readOff == Wrap(old(base.readOff) + old(base.fifoLevel))
    {
      WrapStep(base.readOff);
      WrapByte(base.readOff);
      hide Wrap;
      var _ := base.ReadRx();
      while base.ReadRxLevel() != 0
        invariant base.fifoLevel <= old(base.fifoLevel)
        invariant base.readOff == Wrap(old(base.readOff) + (old(base.fifoLevel) - base.fifoLevel))
        decreases base.fifoLevel
      {
        WrapStep(old(base.readOff) + (old(base.fifoLevel) - base.fifoLevel));
        var _ := base.ReadRx();
      }
    }

    // The device and the driver between two messages
    ghost predicate Quiescent()
      reads this, base
    {
      base.Valid() && !base.pending && !base.rxIntr && !base.txIntr
    }

    // Set the message up, enable the core and address the device.
    method SendAddress(m: Message)
      requires Quiescent() && m.address < 128
      modifies this`msg, this`msgLen, this`msgErr, this`pos, this`complete, this`before
      modifies base`enable, base`fifoLevel, base`readOff, base`isWriting, base`commands, base`pending
      ensures Valid() && msg == m && pos == 0 && !complete && msgErr == 0 && before == |old(base.commands)|
      ensures base.enable && base.fifoLevel == 0 && !base.pending && base.isWriting == !m.read
      ensures base.readOff == old(base.readOff)
      ensures base.commands == old(base.commands) + [Or(START, AddressByte(m.address, m.read))]
      ensures Abstract() == I2cProtocol.Transfer(m.read, if m.read then Zeros(m.buf.Length) else m.buf[..], 0,
                                                 [Or(START, AddressByte(m.address, m.read))], [], 0)
    {
      msg := m;
      msgLen := m.buf.Length;
      pos := 0;
      msgErr := 0;
      complete := false;
      before := |base.commands|;
      CoreEnable();
      WrapByte(base.readOff);
      FlushRxFifo();
      StartBits(m.address, m.read);
      hide Or, AddressByte, Wrap, Zeros;
      base.WriteTx(Or(START, AddressByte(m.address, m.read)));
    }

    // The first commands of a read and of a write, after START and the address
    method BeginRead(ghost start: nat)
      requires Valid() && msg.read && pos == 0 && !complete && !base.isWriting && base.commands[before..] == [start]
      requires base.enable && base.fifoLevel == 0 && !base.pending
      modifies this`isrMask
      modifies base`enable, base`fifoLevel, base`readOff, base`isWriting, base`pending, base`commands,
               base`rxIntr, base`txIntr
      ensures Valid() && !base.isWriting && base.enable && base.readOff == old(base.readOff)
      ensures old(base.commands) <= base.commands
      ensures Abstract() == old(Abstract()).(
                commands := [start] + (if msg.buf.Length > 0 then [Command(0, msg.buf.Length)] else []))
      ensures base.fifoLevel == (if msg.buf.Length > 0 then 1 else 0) && base.pending == (msg.buf.Length > 0)
      ensures base.rxIntr && RxReady in isrMask && base.txIntr == old(base.txIntr)
    {
      ghost var sent := base.commands;
      hide Command, Zeros;
      IntEnable(ERROR_IRQ + {RxReady}, true);
      Transfer(0);
      if msg.buf.Length > 0 {
        Tail(sent, [Command(0, msg.buf.Length)], before);
      }
    }

    method BeginWrite(ghost start: nat)
      requires Valid() && !msg.read && pos == 0 && !complete && base.isWriting && base.commands[before..] == [start]
      requires base.enable && !base.pending
      modifies this`isrMask, this`pos, this`msgLen
      modifies base`enable, base`fifoLevel, base`readOff, base`isWriting, base`pending, base`commands,
               base`rxIntr, base`txIntr
      ensures Valid() && base.isWriting && base.enable
      ensures old(base.commands) <= base.commands
      ensures Abstract() == FillAll(old(Abstract()), base.ReadTxLevel())
      ensures base.readOff == if pos > 0 then msg.buf[pos - 1] else old(base.readOff)
      ensures base.pending == (pos > 0) && base.txIntr && TxReady in isrMask && base.rxIntr == old(base.rxIntr)
      ensures pos == Min(64, msg.buf.Length)
    {
      hide Zeros, FillAll;
      IntEnable(ERROR_IRQ + {TxReady}, true);
      FillMessage();
    }

    lemma IsRunning(start: Byte, earlier: seq<nat>)
      requires Valid() && !complete && base.isWriting == !msg.read && base.enable && msgErr == 0
      requires msg.buf.Length > 0 && before == |earlier| && earlier <= base.commands && base.pending
      requires Abstract() == Begin(msg.address, msg.read, if msg.read then Zeros(msg.buf.Length) else msg.buf[..], 0)
      requires if msg.read then base.rxIntr && RxReady in isrMask else base.txIntr && TxReady in isrMask
      requires if msg.read then base.readOff == start && base.fifoLevel == 1
               else pos > 0 ==> base.readOff == msg.buf[pos - 1]
      ensures Running(start, earlier)
    {
      WrapByte(start);
      BeginFacts(msg.address, msg.read, if msg.read then Zeros(msg.buf.Length) else msg.buf[..]);
      hide Or, Command, Wrap, Proper, FillAll, Outstanding;
    }

    // Enable the interrupts and send the first commands.
    method BeginMsg(m: Message)
      requires Quiescent() && m.address < 128
      modifies this`msg, this`msgLen, this`msgErr, this`pos, this`complete, this`isrMask, this`before
      modifies base`enable, base`fifoLevel, base`readOff, base`isWriting, base`pending, base`commands,
               base`rxIntr, base`txIntr
      ensures Valid() && msg == m && !complete && msgErr == 0
      ensures before == |old(base.commands)| && old(base.commands) <= base.commands
      ensures Abstract() ==
              Begin(m.address, m.read, if m.read then Zeros(m.buf.Length) else m.buf[..], base.ReadTxLevel())
      ensures m.buf.Length > 0 ==> Running(old(base.readOff), old(base.commands))
      ensures m.buf.Length == 0 ==>
                !base.pending && base.readOff == old(base.readOff) && base.rxIntr == m.read && base.txIntr == !m.read
    {
      SendAddress(m);
      ghost var start := Or(START, AddressByte(m.address, m.read));
      hide Or, AddressByte, Command, FillAll, Running, Zeros, Abstract;
      if m.read {
        BeginRead(start);
      } else {
        BeginWrite(start);
      }
      if m.buf.Length > 0 {
        IsRunning(old(base.readOff), old(base.commands));
      }
    }

    // Wait until the handler completes the message or no interrupt is left to come.  The interrupts handled
    // make a run of the protocol.
    method WaitForCompletion(ghost start: Byte, ghost earlier: seq<nat>)
      returns (inTime: bool, ghost irqs: seq<Interrupt>)
      requires Valid() && !complete && if msg.buf.Length > 0 then Running(start, earlier) else !base.pending
      modifies this`pos, this`msgLen, this`msgErr, this`isrMask, this`isrStatus, this`complete, msg.buf
      modifies base`isWriting, base`readOff, base`fifoLevel, base`pending, base`commands, base`rxIntr, base`txIntr
      ensures inTime == complete && (inTime <==> msg.buf.Length > 0)
      ensures inTime ==> Running(start, earlier)
      ensures Valid() && Abstract() == I2cProtocol.Run(old(Abstract()), irqs)
      ensures msg.read ==> Honest(old(Abstract()), irqs)
      ensures !inTime ==>
                irqs == [] && base.commands == old(base.commands) && base.readOff == old(base.readOff) &&
                !base.pending &&
                base.rxIntr == old(base.rxIntr) && base.txIntr == old(base.txIntr) &&
                msgErr == old(msgErr) && msg.buf[..] == old(msg.buf[..])
      ensures !msg.read ==> msg.buf[..] == old(msg.buf[..])
    {
      hide I2cProtocol.Isr, Outstanding, Useful, ReadRunning, WriteRunning, Proper;
      ghost var x := Abstract();
      irqs := [];
      while !complete && base.pending
        invariant Valid() && (msg.buf.Length > 0 ==> Running(start, earlier))
        invariant Abstract() == I2cProtocol.Run(x, irqs)
        invariant msg.read ==> Honest(x, irqs)
        invariant msg.buf.Length == 0 ==>
                    irqs == [] && !complete && !base.pending && base.commands == old(base.commands) &&
                    base.readOff == old(base.readOff) && msgErr == old(msgErr) &&
                    base.rxIntr == old(base.rxIntr) && base.txIntr == old(base.txIntr)
        invariant !msg.read ==> msg.buf[..] == old(msg.buf[..])
        decreases msgLen, if complete then 0 else 1
      {
        ghost var irq := HandleInterrupt(start, earlier);
        if msg.read {
          HonestAppend(x, irqs, irq);
        }
        RunAppend(x, irqs, irq);
        irqs := irqs + [irq];
      }
      inTime := complete;
    }

    // What a completed message has done
    lemma CompletedIs(start: Byte, earlier: seq<nat>)
      requires Running(start, earlier) && complete
      ensures Valid() && pos == msg.buf.Length > 0 && !base.pending && !base.rxIntr && !base.txIntr && msgErr == 0
      ensures Abstract().completed == 1 && base.commands == earlier + Abstract().commands
      ensures Abstract().commands ==
              [Or(START, AddressByte(msg.address, msg.read))] +
              Marked(if msg.read then Zeros(msg.buf.Length) else msg.buf[..])
      ensures msg.read ==>
                && Abstract().got == msg.buf[..] && base.readOff == Wrap(start + msg.buf.Length)
                && forall i :: 0 <= i < msg.buf.Length ==> msg.buf[i] == base.data[Wrap(start + i)]
      ensures !msg.read ==> base.readOff == msg.buf[msg.buf.Length - 1]
    {
      hide Or, Command, Wrap;
      ghost var x := Abstract();
      assert Marked(x.msg)[..msg.buf.Length] == Marked(x.msg);
    }

    // What a message has done to the device and to its buffer, which held `was`.  The commands are those of a run
    // of the protocol whose interrupts are irqs, and if there were bytes, all commands of the message.  A read
    // got the memory from where the device stood; a write moved the device to its last byte.
    ghost predicate Transferred(m: Message, was: seq<Byte>, start: Byte, earlier: seq<nat>, irqs: seq<Interrupt>)
      requires m.address < 128 && base.Valid()
      reads base, m.buf
    {
      var content := if m.read then Zeros(m.buf.Length) else was;
      var first := Begin(m.address, m.read, content, 0);
      var x := I2cProtocol.Run(first, irqs);
      && base.commands == earlier + x.commands
      && x.commands == [Or(START, AddressByte(m.address, m.read))] + Marked(content)
      && (x.completed == 1 <==> m.buf.Length > 0)
      && (m.read ==> Honest(first, irqs) && x.got == m.buf[..])
      && if m.read then
           && base.readOff == Wrap(start + m.buf.Length)
           && forall i :: 0 <= i < m.buf.Length ==> m.buf[i] == base.data[Wrap(start + i)]
         else
           && m.buf[..] == was
           && base.readOff == if m.buf.Length > 0 then m.buf[m.buf.Length - 1] else start
    }

    lemma HasTransferred(was: seq<Byte>, start: Byte, earlier: seq<nat>, irqs: seq<Interrupt>)
      requires Running(start, earlier) && complete && |was| == msg.buf.Length && (!msg.read ==> msg.buf[..] == was)
      requires var first := Begin(msg.address, msg.read, if msg.read then Zeros(msg.buf.Length) else was, 0);
               Abstract() == I2cProtocol.Run(first, irqs) && (msg.read ==> Honest(first, irqs))
      ensures Transferred(msg, was, start, earlier, irqs)
      ensures !base.pending && !base.rxIntr && !base.txIntr && msgErr == 0
    {
      hide *;
      CompletedIs(start, earlier);
      IsTransferred(was, start, earlier, irqs);
    }

    lemma IsTransferred(was: seq<Byte>, start: Byte, earlier: seq<nat>, irqs: seq<Interrupt>)
      requires Valid() && |was| == msg.buf.Length > 0 && (!msg.read ==> msg.buf[..] == was)
      requires var first := Begin(msg.address, msg.read, if msg.read then Zeros(msg.buf.Length) else was, 0);
               Abstract() == I2cProtocol.Run(first, irqs) && (msg.read ==> Honest(first, irqs))
      requires Abstract().completed == 1 && base.commands == earlier + Abstract().commands
      requires Abstract().commands ==
               [Or(START, AddressByte(msg.address, msg.read))] +
               Marked(if msg.read then Zeros(msg.buf.Length) else msg.buf[..])
      requires msg.read ==>
                 && Abstract().got == msg.buf[..] && base.readOff == Wrap(start + msg.buf.Length)
                 && forall i :: 0 <= i < msg.buf.Length ==> msg.buf[i] == base.data[Wrap(start + i)]
      requires !msg.read ==> base.readOff == msg.buf[msg.buf.Length - 1]
      ensures Transferred(msg, was, start, earlier, irqs)
    {
      hide Or, Command, Wrap, Begin, I2cProtocol.Run, Honest, Zeros, Marked, AddressByte, Abstract;
    }

    lemma EmptyTransferred(was: seq<Byte>, start: Byte, earlier: seq<nat>)
      requires Valid() && msg.buf.Length == 0 && was == [] && !complete
      requires before == |earlier| && earlier <= base.commands && base.readOff == start
      requires Abstract() == Begin(msg.address, msg.read, if msg.read then Zeros(0) else was, 0)
      ensures Transferred(msg, was, start, earlier, [])
    {
      WrapByte(start);
      EmptyRun(msg.address, msg.read);
      assert Zeros(0) == [];
      hide Or, Command, Wrap, Begin, Marked, AddressByte;
    }

    // The commands of a message and the wait for its end
    method RunMsg(m: Message) returns (inTime: bool, ghost irqs: seq<Interrupt>)
      requires Quiescent() && m.address < 128
      modifies this, base, m.buf
      ensures base.Valid() && !base.pending && (inTime <==> m.buf.Length > 0) && msgErr == 0
      ensures inTime ==> !base.rxIntr && !base.txIntr
      ensures !inTime ==> base.rxIntr == m.read && base.txIntr == !m.read
      ensures Transferred(m, old(m.buf[..]), old(base.readOff), old(base.commands), irqs)
    {
      ghost var start, earlier, was := base.readOff, base.commands, m.buf[..];
      BeginMsg(m);
      hide *;
      inTime, irqs := WaitForCompletion(start, earlier);
      if inTime {
        HasTransferred(was, start, earlier, irqs);
      } else {
        EmptyTransferred(was, start, earlier);
      }
    }

    // One message.  An empty one raises no interrupt and times out.
    method XferMsg(m: Message) returns (err: int, ghost irqs: seq<Interrupt>)
      requires Quiescent() && m.address < 128
      modifies this, base, m.buf
      ensures Quiescent()
      ensures err == if m.buf.Length > 0 then 0 else -110
      ensures Transferred(m, old(m.buf[..]), old(base.readOff), old(base.commands), irqs)
    {
      hide Or, Command, Wrap, Begin, I2cProtocol.Run, Honest, Marked, Zeros, AddressByte;
      var inTime;
      inTime, irqs := RunMsg(m);
      IntEnable(ERROR_IRQ + (if m.read then {RxReady} else {TxReady}), false);
      if !inTime {
        msgErr := -ETIMEDOUT;
      }
      CoreDisable();
      err := msgErr;
    }

    // Messages one after the other, up to the first that fails; that one is empty, and no later one is sent.  Each
    // read finds the device where the message before it left it.  Messages may share buffers; `done` has what
    // each message that was sent left in its own, the failed one included.
    method Xfer(msgs: seq<Message>) returns (ret: int, ghost done: seq<seq<Byte>>)
      requires Quiescent() && Addressed(msgs)
      modifies this, base, set i | 0 <= i < |msgs| :: msgs[i].buf
      ensures Quiescent()
      ensures |done| <= |msgs|
      ensures XferDone(msgs, old(base.readOff), old(base.commands), old(Contents(msgs)), done)
      ensures forall i :: 0 <= i < |done| - 1 ==> msgs[i].buf.Length > 0
      ensures if forall i :: 0 <= i < |msgs| ==> msgs[i].buf.Length > 0 then ret == |msgs| == |done|
              else ret == -110 && |done| > 0 && msgs[|done| - 1].buf.Length == 0
    {
      hide OffsetAfter, Latest, Delivered, AllCommands;
      ghost var start, contents, earlier := base.readOff, Contents(msgs), base.commands;
      StartsDone(start, msgs, contents);
      var n := 0;
      done := [];
      while n < |msgs|
        invariant 0 <= n == |done| <= |msgs| && Quiescent()
        invariant forall i :: 0 <= i < n ==> msgs[i].buf.Length > 0
        invariant XferDone(msgs, start, earlier, contents, done)
      {
        ret, done := XferNext(msgs, n, start, earlier, contents, done);
        if ret != 0 {
          return;
        }
        n := n + 1;
      }
      ret := |msgs|;
    }

    // One more message after those that are done
    method XferNext(msgs: seq<Message>, n: nat, ghost start: Byte, ghost earlier: seq<nat>,
                    ghost contents: seq<seq<Byte>>, ghost done: seq<seq<Byte>>)
      returns (err: int, ghost done': seq<seq<Byte>>)
      requires Quiescent() && |done| == n < |msgs| == |contents| && Addressed(msgs)
      requires XferDone(msgs, start, earlier, contents, done)
      modifies this, base, msgs[n].buf
      ensures Quiescent()
      ensures err == if msgs[n].buf.Length > 0 then 0 else -110
      ensures |done'| == n + 1 && XferDone(msgs, start, earlier, contents, done')
    {
      hide OffsetAfter, Latest, ReadFrom, Delivered, AllCommands, MessageCommands, Or, Marked, Zeros, AddressByte, Wrap,
           Begin, I2cProtocol.Run, Honest;
      ghost var offset, was, before := base.readOff, msgs[n].buf[..], base.commands;
      ghost var irqs;
      err, irqs := XferMsg(msgs[n]);
      done' := done + [msgs[n].buf[..]];
      TransferredDoes(msgs[n], was, offset, before, irqs);
      assert done'[..n] == done && forall i :: 0 <= i <= n ==> done'[..i] == done[..i];
      assert msgs[..n + 1][..n] == msgs[..n];
      OffsetStep(start, msgs[..n + 1], done');
      CommandsStep(earlier, msgs[..n + 1], done');
      forall i | 0 <= i < |msgs|
        ensures Latest(msgs, contents, done', i) == msgs[i].buf[..]
      {
        LatestStep(msgs, contents, done', i);
      }
    }

    lemma TransferredDoes(m: Message, was: seq<Byte>, start: Byte, earlier: seq<nat>, irqs: seq<Interrupt>)
      requires m.address < 128 && base.Valid() && |was| == m.buf.Length && Transferred(m, was, start, earlier, irqs)
      ensures base.commands == earlier + MessageCommands(m, m.buf[..])
      ensures Delivered(m, base.data, start, was, m.buf[..])
      ensures base.readOff == if m.read then Wrap(start + m.buf.Length)
                              else if m.buf.Length == 0 then start else m.buf[m.buf.Length - 1]
    {
      hide Or, Marked, Zeros, AddressByte, Wrap, Begin, I2cProtocol.Run, Honest;
      IsDelivered(m, base.data, start, was);
    }

    // The messages that have left `done` have been sent, and no other: each read got the memory from where the
    // device then stood, each write sent what its buffer held, and every buffer has what the last message with
    // it left there.
    ghost predicate XferDone(msgs: seq<Message>, start: Byte, earlier: seq<nat>, contents: seq<seq<Byte>>,
                             done: seq<seq<Byte>>)
      requires |done| <= |msgs| == |contents| && Addressed(msgs)
      reads base, set i | 0 <= i < |msgs| :: msgs[i].buf
    {
      && base.Valid()
      && base.readOff == OffsetAfter(start, msgs[..|done|], done)
      && base.commands == earlier + AllCommands(msgs[..|done|], done)
      && (forall i :: 0 <= i < |done| ==>
            Delivered(msgs[i], base.data, OffsetAfter(start, msgs[..i], done[..i]),
                      Latest(msgs, contents, done[..i], i), done[i]))
      && forall i :: 0 <= i < |msgs| ==> msgs[i].buf[..] == Latest(msgs, contents, done, i)
    }

    lemma StartsDone(start: Byte, msgs: seq<Message>, contents: seq<seq<Byte>>)
      requires base.Valid() && base.readOff == start && contents == Contents(msgs) && Addressed(msgs)
      ensures XferDone(msgs, start, base.commands, contents, [])
    {
    }

    // The transaction of a reader: a one-byte write of an offset, then a read.  The buffer receives
    // the memory of the device from that offset on, wrapping at its end.
    method ReadMemory(address: nat, offset: array<Byte>, buf: array<Byte>) returns (ret: int)
      requires Quiescent() && address < 128
      requires offset.Length == 1 && buf.Length > 0
      modifies this, base, offset, buf
      ensures Quiescent() && ret == 2
      ensures forall i :: 0 <= i < buf.Length ==> buf[i] == base.data[(old(offset[0]) + i) % 256]
    {
      ghost var o, start := offset[0], base.readOff;
      var write, read := Message(address, false, offset), Message(address, true, buf);
      var msgs := [write, read];
      assert offset[..] == [o];
      ghost var contents, earlier := Contents(msgs), base.commands;
      ghost var done;
      ret, done := Xfer(msgs);
      hide Wrap, AllCommands;
      ReaderDone(start, earlier, msgs, contents, done);
    }

    lemma ReaderDone(start: Byte, earlier: seq<nat>, msgs: seq<Message>, contents: seq<seq<Byte>>,
                     done: seq<seq<Byte>>)
      requires |msgs| == |contents| == |done| == 2 && !msgs[0].read && msgs[1].read && |contents[0]| == 1
      requires Addressed(msgs) && XferDone(msgs, start, earlier, contents, done)
      ensures base.Valid() && ReadFrom(msgs[1].buf[..], base.data, contents[0][0])
    {
      assert done[..0] == [] && Latest(msgs, contents, [], 0) == contents[0];
      assert done[..1] == [done[0]] && msgs[..1] == [msgs[0]];
      assert done[0] == contents[0] == [contents[0][0]];
      OffsetAfterWrite(start, msgs[0], contents[0][0]);
      assert Delivered(msgs[1], base.data, contents[0][0], Latest(msgs, contents, done[..1], 1), done[1]);
      assert Latest(msgs, contents, done, 1) == done[1];
    }
  }

  predicate Addressed(msgs: seq<Message>)
  {
    forall i :: 0 <= i < |msgs| ==> msgs[i].address < 128
  }

  // What a message sends that has left `now` in its buffer
  ghost function MessageCommands(m: Message, now: seq<Byte>): seq<nat>
    requires m.address < 128
  {
    [Or(START, AddressByte(m.address, m.read))] + Marked(if m.read then Zeros(|now|) else now)
  }

  ghost function AllCommands(msgs: seq<Message>, done: seq<seq<Byte>>): seq<nat>
    requires |msgs| == |done| && Addressed(msgs)
  {
    if msgs == [] then []
    else
      var n := |msgs| - 1;
      AllCommands(msgs[..n], done[..n]) + MessageCommands(msgs[n], done[n])
  }

  lemma CommandsStep(earlier: seq<nat>, msgs: seq<Message>, done: seq<seq<Byte>>)
    requires 0 < |msgs| == |done| && Addressed(msgs)
    ensures var n := |msgs| - 1;
            earlier + AllCommands(msgs, done) ==
              earlier + AllCommands(msgs[..n], done[..n]) + MessageCommands(msgs[n], done[n])
  {
    hide MessageCommands;
  }

  // The bytes of the messages
  ghost function Contents(msgs: seq<Message>): (cs: seq<seq<Byte>>)
    reads set i | 0 <= i < |msgs| :: msgs[i].buf
    ensures |cs| == |msgs|
  {
    seq(|msgs|, i requires 0 <= i < |msgs| reads set j | 0 <= j < |msgs| :: msgs[j].buf => msgs[i].buf[..])
  }

  // Where the device stands after the messages, if it started at `offset` and they left `done` in their
  // buffers: a read moves it on and a write moves it to its last byte.
  ghost function OffsetAfter(offset: Byte, msgs: seq<Message>, done: seq<seq<Byte>>): Byte
    requires |msgs| == |done|
  {
    if msgs == [] then offset
    else
      var n := |msgs| - 1;
      var before := OffsetAfter(offset, msgs[..n], done[..n]);
      if msgs[n].read then Wrap(before + |done[n]|)
      else if done[n] == [] then before
      else done[n][|done[n]| - 1]
  }

  // What the buffer of message i holds once the messages before have left `done` in theirs
  ghost function Latest(msgs: seq<Message>, contents: seq<seq<Byte>>, done: seq<seq<Byte>>, i: nat): seq<Byte>
    requires |done| <= |msgs| == |contents| && i < |msgs|
  {
    if done == [] then contents[i]
    else
      var n := |done| - 1;
      if msgs[n].buf == msgs[i].buf then done[n] else Latest(msgs, contents, done[..n], i)
  }

  lemma LatestStep(msgs: seq<Message>, contents: seq<seq<Byte>>, done: seq<seq<Byte>>, i: nat)
    requires 0 < |done| <= |msgs| == |contents| && i < |msgs|
    ensures var n := |done| - 1;
            Latest(msgs, contents, done, i) ==
              if msgs[n].buf == msgs[i].buf then done[n] else Latest(msgs, contents, done[..n], i)
  {
  }

  ghost predicate ReadFrom(bytes: seq<Byte>, data: seq<Byte>, offset: Byte)
    requires |data| == DATA_SIZE
  {
    forall i :: 0 <= i < |bytes| ==> bytes[i] == data[Wrap(offset + i)]
  }

  // A message whose buffer held `was` has left `now` in it: a read the memory from `offset` on, a write the same.
  ghost predicate Delivered(m: Message, data: seq<Byte>, offset: Byte, was: seq<Byte>, now: seq<Byte>)
    requires |data| == DATA_SIZE
  {
    |now| == |was| && if m.read then ReadFrom(now, data, offset) else now == was
  }

  lemma IsDelivered(m: Message, data: seq<Byte>, offset: Byte, was: seq<Byte>)
    requires |data| == DATA_SIZE && |was| == m.buf.Length
    requires if m.read then forall i :: 0 <= i < m.buf.Length ==> m.buf[i] == data[Wrap(offset + i)]
             else m.buf[..] == was
    ensures Delivered(m, data, offset, was, m.buf[..])
  {
  }

  lemma StartBits(address: nat, read: bool)
    requires address < 128
    ensures var c := Or(START, AddressByte(address, read)); c / 512 % 2 == 1 && (c % 2 == 0 <==> !read)
  {
    StartDecodes(address, read);
    hide Or;
  }

  lemma OffsetAfterWrite(offset: Byte, m: Message, o: Byte)
    requires !m.read
    ensures OffsetAfter(offset, [m], [[o]]) == o
  {
  }

  lemma OffsetStep(offset: Byte, msgs: seq<Message>, done: seq<seq<Byte>>)
    requires 0 < |msgs| == |done|
    ensures var n := |msgs| - 1;
            var before := OffsetAfter(offset, msgs[..n], done[..n]);
            OffsetAfter(offset, msgs, done) ==
              if msgs[n].read then Wrap(before + |done[n]|)
              else if done[n] == [] then before
              else done[n][|done[n]| - 1]
  {
  }

  lemma Tail(s: seq<nat>, t: seq<nat>, n: nat)
    requires n <= |s|
    ensures (s + t)[n..] == s[n..] + t
  {
  }

  lemma OneMore(s: seq<nat>, i: nat, j: nat)
    requires i <= j < |s|
    ensures s[i..j + 1] == s[i..j] + [s[j]]
  {
  }
}
