/** The command stream of the I2C master driver under every interrupt and FIFO-level sequence
    (driver/src/i2c.c).  The device is any that raises no error.
 */
module I2cProtocol {
  import opened Bits

  type Byte = b: nat | b < 256

  const START: nat := 512
  const STOP: nat := 256
  const FIFO_SIZE: nat := 64

  // ----- The commands of a message -----

  // The address byte of a message
  function AddressByte(address: nat, read: bool): (b: Byte)
    requires address < 128
  {
    2 * address + (if read then 1 else 0)
  }

  // What altr_i2c_transfer writes for a byte when `left` bytes of the message are left.
  function Command(data: Byte, left: nat): nat
  {
    if left == 1 then Or(data, STOP) else data
  }

  // Each byte in order, with STOP on the last only
  function Marked(msg: seq<Byte>): (cs: seq<nat>)
    ensures |cs| == |msg|
  {
    seq(|msg|, i requires 0 <= i < |msg| => Command(msg[i], |msg| - i))
  }

  // A read sends one command of no data for each byte.
  function Zeros(n: nat): (z: seq<Byte>)
    ensures |z| == n && forall i :: 0 <= i < n ==> z[i] == 0
  {
    seq(n, i => 0)
  }

  predicate IsStop(command: nat)
  {
    command / 256 % 2 == 1
  }

  lemma CommandDecodes(data: Byte, left: nat)
    ensures Command(data, left) == data + if left == 1 then 0x100 else 0
    ensures Command(data, left) < START
    ensures Command(data, left) % 256 == data
    ensures IsStop(Command(data, left)) <==> left == 1
  {
    hide Or, Pow2;
    Pow2Values();
    OrDisjoint(data, 1, 8);
  }

  lemma StartDecodes(address: nat, read: bool)
    requires address < 128
    ensures Or(START, AddressByte(address, read)) == 0x200 + 2 * address + if read then 1 else 0
  {
    hide Or, Pow2;
    Pow2Values();
    OrCommutes(START, AddressByte(address, read));
    OrDisjoint(AddressByte(address, read), 1, 9);
  }

  lemma MarkedStopsLast(msg: seq<Byte>, i: nat)
    requires i < |msg|
    ensures IsStop(Marked(msg)[i]) <==> i == |msg| - 1
    ensures Marked(msg)[i] - msg[i] == if i == |msg| - 1 then 0x100 else 0
  {
    CommandDecodes(msg[i], |msg| - i);
  }

  // ----- The driver -----

  // A transfer: the message (its length alone matters for a read), the bytes dealt with, the
  // commands written, the bytes received and how often the transfer was completed.
  datatype Transfer = Transfer(
    read: bool, msg: seq<Byte>, pos: nat, commands: seq<nat>, got: seq<Byte>, completed: nat)

  function Left(x: Transfer): nat
  {
    if x.pos <= |x.msg| then |x.msg| - x.pos else 0
  }

  // Fill the transfer FIFO with k bytes, one after the other.
  function Fill(x: Transfer, k: nat): Transfer
    requires k <= Left(x)
    decreases k
  {
    if k == 0 then x
    else Fill(x.(commands := x.commands + [Command(x.msg[x.pos], Left(x))], pos := x.pos + 1), k - 1)
  }

  // One byte taken: the next read command, if any byte is left.
  function DrainOne(x: Transfer, byte: Byte): Transfer
    requires Left(x) > 0
  {
    var taken := x.(got := x.got + [byte], pos := x.pos + 1);
    if Left(taken) > 0 then taken.(commands := taken.commands + [Command(0, Left(taken))]) else taken
  }

  // Take the given bytes, asking for another after each unless it was the last.
  function Drain(x: Transfer, bytes: seq<Byte>): Transfer
    requires |bytes| <= Left(x)
    decreases |bytes|
  {
    if bytes == [] then x
    else
      Drain(DrainOne(x, bytes[0]), bytes[1..])
  }

  lemma {:induction false} DrainAppend(x: Transfer, bytes: seq<Byte>, byte: Byte)
    requires |bytes| < Left(x)
    ensures Left(Drain(x, bytes)) == Left(x) - |bytes|
    ensures Drain(x, bytes + [byte]) == DrainOne(Drain(x, bytes), byte)
    decreases |bytes|
  {
    hide Command;
    if bytes == [] {
      assert [byte][1..] == [];
    } else {
      DrainAppend(DrainOne(x, bytes[0]), bytes[1..], byte);
      assert (bytes + [byte])[1..] == bytes[1..] + [byte];
    }
  }

  function Min(a: nat, b: nat): nat
  {
    if a < b then a else b
  }

  // What an interrupt finds: the level of the transfer FIFO and the bytes in the receive FIFO.
  datatype Interrupt = Interrupt(txLevel: nat, rx: seq<Byte>)

  function FillAll(x: Transfer, txLevel: nat): Transfer
  {
    Fill(x, Min(if txLevel < FIFO_SIZE then FIFO_SIZE - txLevel else 0, Left(x)))
  }

  // The threaded handler; completion masks every interrupt.
  function Isr(x: Transfer, i: Interrupt): Transfer
  {
    if x.completed > 0 then x
    else if x.read then
      if i.rx == [] then x
      else
        var drained := Drain(x, i.rx[..Min(|i.rx|, Left(x))]);
        if Left(drained) == 0 then drained.(completed := drained.completed + 1) else drained
    else if Left(x) > 0 then FillAll(x, i.txLevel)
    else x.(completed := x.completed + 1)
  }

  // The first commands of altr_i2c_xfer_msg
  function Begin(address: nat, read: bool, msg: seq<Byte>, txLevel: nat): Transfer
    requires address < 128
  {
    var x := Transfer(read, msg, 0, [Or(START, AddressByte(address, read))], [], 0);
    if !read then FillAll(x, txLevel)
    else if msg == [] then x
    else x.(commands := x.commands + [Command(0, |msg|)])
  }

  function Run(x: Transfer, irqs: seq<Interrupt>): Transfer
    decreases |irqs|
  {
    if irqs == [] then x else Isr(Run(x, irqs[..|irqs| - 1]), irqs[|irqs| - 1])
  }

  // ----- What the device sees -----

  // Read commands sent and not yet answered
  function Outstanding(x: Transfer): int
  {
    |x.commands| - 1 - x.pos
  }

  // START and the address, then the commands of the message in order.
  ghost predicate Proper(x: Transfer, address: nat)
    requires address < 128
  {
    && x.pos <= |x.msg|
    && x.completed <= 1
    && (x.completed == 1 ==> x.pos == |x.msg|)
    && (!x.read ==> x.commands == [Or(START, AddressByte(address, false))] + Marked(x.msg)[..x.pos])
    && (x.read ==>
          && x.commands == [Or(START, AddressByte(address, true))] + Marked(Zeros(|x.msg|))[..Min(x.pos + 1, |x.msg|)]
          && |x.got| == x.pos
          && (x.pos == |x.msg| > 0 ==> x.completed == 1))
  }

  lemma {:induction false} FillIsMarked(x: Transfer, k: nat)
    requires k <= Left(x) && x.pos <= |x.msg|
    ensures Fill(x, k) == x.(pos := x.pos + k, commands := x.commands + Marked(x.msg)[x.pos..x.pos + k])
    decreases k
  {
    hide Command;
    if k > 0 {
      var x' := x.(commands := x.commands + [Command(x.msg[x.pos], Left(x))], pos := x.pos + 1);
      FillIsMarked(x', k - 1);
      assert Marked(x.msg)[x.pos..x.pos + k] == [Marked(x.msg)[x.pos]] + Marked(x.msg)[x.pos + 1..x.pos + k];
    }
  }

  lemma Slices(cs: seq<nat>, a: nat, b: nat, c: nat)
    requires a <= b <= c <= |cs|
    ensures cs[a..b] + cs[b..c] == cs[a..c]
  {
  }

  // The read commands sent so far: one for each byte received and one more.
  ghost predicate ReadsAhead(x: Transfer, head: nat)
  {
    && x.pos <= |x.msg| && |x.got| == x.pos
    && x.commands == [head] + Marked(Zeros(|x.msg|))[..Min(x.pos + 1, |x.msg|)]
  }

  lemma DrainOneReadsAhead(x: Transfer, byte: Byte, head: nat)
    requires Left(x) > 0 && ReadsAhead(x, head)
    ensures ReadsAhead(DrainOne(x, byte), head)
  {
    var n := |x.msg|;
    var z := Marked(Zeros(n));
    if x.pos + 1 < n {
      assert z[..x.pos + 2] == z[..x.pos + 1] + [z[x.pos + 1]];
    }
  }

  lemma {:induction false} DrainReadsAhead(x: Transfer, bytes: seq<Byte>, head: nat)
    requires |bytes| <= Left(x) && ReadsAhead(x, head)
    ensures var x' := Drain(x, bytes);
            && ReadsAhead(x', head)
            && x' == Transfer(x.read, x.msg, x.pos + |bytes|, x'.commands, x.got + bytes, x.completed)
    decreases |bytes|
  {
    if bytes == [] {
      assert x.got + bytes == x.got;
    } else {
      var next := DrainOne(x, bytes[0]);
      DrainOneReadsAhead(x, bytes[0], head);
      assert next.got + bytes[1..] == x.got + bytes;
      hide ReadsAhead;
      DrainReadsAhead(next, bytes[1..], head);
    }
  }

  lemma ReadIsrKeepsProper(x: Transfer, i: Interrupt, address: nat)
    requires address < 128 && Proper(x, address) && x.msg != [] && x.read
    requires |i.rx| <= Outstanding(x)
    ensures Proper(Isr(x, i), address) && Outstanding(Isr(x, i)) <= 1
    ensures Isr(x, i).read == x.read && Isr(x, i).msg == x.msg
  {
    hide Command, Drain, Fill, Marked, Zeros, Or;
    DrainReadsAhead(x, i.rx[..Min(|i.rx|, Left(x))], Or(START, AddressByte(address, true)));
  }

  lemma WriteIsrKeepsProper(x: Transfer, i: Interrupt, address: nat)
    requires address < 128 && Proper(x, address) && x.msg != [] && !x.read
    ensures Proper(Isr(x, i), address) && Outstanding(Isr(x, i)) <= 1
    ensures Isr(x, i).read == x.read && Isr(x, i).msg == x.msg
  {
    var k := Min(if i.txLevel < FIFO_SIZE then FIFO_SIZE - i.txLevel else 0, Left(x));
    FillIsMarked(x, k);
    hide Command, Drain, Fill, Marked, Zeros, Or;
    Slices(Marked(x.msg), 0, x.pos, x.pos + k);
  }

  lemma IsrKeepsProper(x: Transfer, i: Interrupt, address: nat)
    requires address < 128 && Proper(x, address) && x.msg != []
    requires |i.rx| <= Outstanding(x) || !x.read
    ensures Proper(Isr(x, i), address)
    ensures Outstanding(Isr(x, i)) <= 1
    ensures Isr(x, i).read == x.read && Isr(x, i).msg == x.msg
  {
    if x.read {
      ReadIsrKeepsProper(x, i, address);
    } else {
      WriteIsrKeepsProper(x, i, address);
    }
  }

  // The device holds no more received bytes than it was asked for.
  ghost predicate Honest(x: Transfer, irqs: seq<Interrupt>)
  {
    forall k :: 0 <= k < |irqs| ==> |irqs[k].rx| <= Outstanding(Run(x, irqs[..k]))
  }

  lemma {:induction false} RunKeepsProper(x: Transfer, irqs: seq<Interrupt>, address: nat)
    requires address < 128 && Proper(x, address) && x.msg != [] && Outstanding(x) <= 1
    requires x.read ==> Honest(x, irqs)
    ensures Proper(Run(x, irqs), address) && Outstanding(Run(x, irqs)) <= 1
    ensures Run(x, irqs).read == x.read && Run(x, irqs).msg == x.msg
    decreases |irqs|
  {
    hide Isr, Proper;
    if irqs != [] {
      var before := irqs[..|irqs| - 1];
      assert forall k :: 0 <= k < |before| ==> before[k] == irqs[k] && before[..k] == irqs[..k];
      RunKeepsProper(x, before, address);
      IsrKeepsProper(Run(x, before), irqs[|irqs| - 1], address);
    }
  }

  // The first commands of a message
  lemma BeginIsProper(address: nat, read: bool, msg: seq<Byte>, txLevel: nat)
    requires address < 128 && msg != []
    ensures Proper(Begin(address, read, msg, txLevel), address) && Outstanding(Begin(address, read, msg, txLevel)) <= 1
  {
    hide Or, Command;
    var x0 := Transfer(read, msg, 0, [Or(START, AddressByte(address, read))], [], 0);
    if read {
      assert Marked(Zeros(|msg|))[..1] == [Command(0, |msg|)];
    } else {
      FillIsMarked(x0, Min(if txLevel < FIFO_SIZE then FIFO_SIZE - txLevel else 0, |msg|));
    }
    hide Fill;
  }

  lemma BeginIs(address: nat, read: bool, msg: seq<Byte>, txLevel: nat)
    requires address < 128
    ensures Begin(address, read, msg, txLevel).read == read && Begin(address, read, msg, txLevel).msg == msg
  {
    hide Or, Command;
    var x0 := Transfer(read, msg, 0, [Or(START, AddressByte(address, read))], [], 0);
    FillIsMarked(x0, Min(if txLevel < FIFO_SIZE then FIFO_SIZE - txLevel else 0, |msg|));
    hide Fill;
  }

  // For every message, interrupt sequence and FIFO level: the commands written are START with the
  // address and then the bytes of the message in order; STOP is on the last byte only; a read has
  // at most one command outstanding; the transfer completes at most once, and only when every
  // byte has been dealt with.
  lemma CommandStream(address: nat, read: bool, msg: seq<Byte>, txLevel: nat, irqs: seq<Interrupt>)
    requires address < 128 && msg != []
    requires read ==> Honest(Begin(address, read, msg, txLevel), irqs)
    ensures var x := Run(Begin(address, read, msg, txLevel), irqs);
            var all := [Or(START, AddressByte(address, read))] + Marked(if read then Zeros(|msg|) else msg);
            && x.commands <= all
            && (x.completed == 1 ==> x.commands == all && (read ==> |x.got| == |msg|))
            && x.completed <= 1
            && (read ==> Outstanding(x) <= 1)
  {
    var x := Begin(address, read, msg, txLevel);
    BeginIsProper(address, read, msg, txLevel);
    BeginIs(address, read, msg, txLevel);
    hide Or, Command, Isr, Run, Begin;
    RunKeepsProper(x, irqs, address);
    var m := Marked(if read then Zeros(|msg|) else msg);
    assert m[..|msg|] == m;
  }

  // An interrupt the device raises for a reason: room for commands, or a received byte.
  predicate Useful(x: Transfer, i: Interrupt)
  {
    if x.read then |i.rx| > 0 else i.txLevel < FIFO_SIZE
  }

  // Each useful interrupt deals with a byte at least, or completes the transfer.
  lemma IsrProgress(x: Transfer, i: Interrupt, address: nat)
    requires address < 128 && Proper(x, address) && x.msg != [] && x.completed == 0
    requires Useful(x, i)
    ensures Left(Isr(x, i)) < Left(x) || Isr(x, i).completed == 1
  {
    hide Command, Drain, Fill;
    if x.read {
      DrainReadsAhead(x, i.rx[..Min(|i.rx|, Left(x))], Or(START, AddressByte(address, true)));
    } else {
      FillIsMarked(x, Min(FIFO_SIZE - i.txLevel, Left(x)));
    }
  }

  // A message of n bytes completes, once, within n + 1 useful interrupts.
  lemma {:induction false} Completes(x: Transfer, irqs: seq<Interrupt>, address: nat)
    requires address < 128 && Proper(x, address) && x.msg != [] && Outstanding(x) <= 1
    requires x.read ==> Honest(x, irqs)
    requires forall k :: 0 <= k < |irqs| ==> Useful(x, irqs[k])
    ensures Run(x, irqs).completed == 1 || Left(Run(x, irqs)) + |irqs| <= |x.msg|
    ensures |irqs| > |x.msg| ==> Run(x, irqs).completed == 1
    decreases |irqs|
  {
    RunKeepsProper(x, irqs, address);
    if irqs != [] {
      var before, last := irqs[..|irqs| - 1], irqs[|irqs| - 1];
      assert forall k :: 0 <= k < |before| ==> before[k] == irqs[k] && before[..k] == irqs[..k];
      Completes(x, before, address);
      RunKeepsProper(x, before, address);
      var y := Run(x, before);
      hide Proper, Run;
      if y.completed == 0 {
        hide Isr;
        IsrProgress(y, last, address);
      }
    }
  }

  lemma HonestAppend(x: Transfer, irqs: seq<Interrupt>, i: Interrupt)
    requires Honest(x, irqs) && |i.rx| <= Outstanding(Run(x, irqs))
    ensures Honest(x, irqs + [i])
    ensures Run(x, irqs + [i]) == Isr(Run(x, irqs), i)
  {
    hide Isr, Outstanding;
    var all := irqs + [i];
    assert all[..|irqs|] == irqs;
    assert forall k :: 0 <= k < |irqs| ==> all[..k] == irqs[..k] && all[k] == irqs[k];
  }

  lemma RunAppend(x: Transfer, irqs: seq<Interrupt>, i: Interrupt)
    ensures Run(x, irqs + [i]) == Isr(Run(x, irqs), i)
  {
    hide Isr;
    assert (irqs + [i])[..|irqs|] == irqs;
  }
}
