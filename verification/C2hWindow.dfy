/** Where the card-to-host sender writes (ip/fejkon_pcie_data/c2h_dma.sv and the write pointer in
    ip/fejkon_pcie_data/fejkon_pcie_data.sv).
 */
module C2hWindow {
  import opened C2hDma

  // n bytes at an address are inside the window and inside one page.
  predicate Within(w: Config, address: int, n: int)
  {
    && w.start <= address && 0 < n <= 256 && address + n <= w.end
    && address / 4096 == (address + n - 1) / 4096
  }

  // The bytes a header says its TLP writes
  function LengthOf(b: TlpBeat): int
    requires b.dwords != []
  {
    var word: int := b.dwords[0];
    4 * (word - 0x4000_0000)
  }

  // Where the payload of the next beat goes: the header beat writes the metadata, every other beat eight dwords.
  function Cursor(sent: seq<TlpBeat>): nat
  {
    if sent == [] then 0
    else
      var b := sent[|sent| - 1];
      if b.sop then (if |b.dwords| == 8 then b.dwords[2] + 4 * HeaderLength(b.dwords[2]) else 0)
      else Cursor(sent[..|sent| - 1]) + 32
  }

  ghost predicate BeatWithin(w: Config, before: seq<TlpBeat>, b: TlpBeat)
  {
    if b.sop then |b.dwords| == 8 && Within(w, b.dwords[2], LengthOf(b)) else Within(w, Cursor(before), 32)
  }

  // The clocks have the same window, whatever else they bring.
  predicate InTheWindow(w: Config, ins: seq<Input>)
  {
    forall t :: 0 <= t < |ins| ==> ins[t].c.start == w.start && ins[t].c.end == w.end
  }

  // Dwords a packet may still send, in whole beats
  function ToSend(left: nat): nat
  {
    (left + 7) / 8 * 8
  }

  // The pointer is unset or in the window, and a TLP under way has room for what is left of it.
  ghost predicate Safe(w: Config, s: State, sent: seq<TlpBeat>)
  {
    && (if s.valid then InWindow(w, s.ptr) else s.ptr == 0 || InWindow(w, s.ptr))
    && s.left <= FRAGMENT
    && (s.running && s.valid && s.left > 0 ==> Within(w, Cursor(sent), 4 * ToSend(s.left)))
  }

  lemma PageOf(page: nat, offset: nat)
    requires offset < 4096
    ensures (4096 * page + offset) / 4096 == page
  {
  }

  lemma {:induction false} HeaderWithin(c: Config, ptr: nat, m: Meta, sent: seq<TlpBeat>)
    requires WindowOk(c) && InWindow(c, ptr) && m.length > 0
    ensures var b := TlpBeat(HeaderDwords(c, ptr, m), true, false, 0);
            && BeatWithin(c, sent, b)
            && Within(c, Cursor(sent + [b]), 4 * ToSend(Min(m.length, FRAGMENT)))
  {
    var page := ptr / 4096;
    SlotHeader(ptr, page);
    var b := TlpBeat(HeaderDwords(c, ptr, m), true, false, 0);
    var n := Min(m.length, FRAGMENT);
    assert (sent + [b])[..|sent|] == sent;
    assert b.dwords[2] == ptr && Cursor(sent + [b]) == ptr + 16;
    assert LengthOf(b) == 4 * n + 16;
    assert c.start <= ptr && ptr + 4096 <= c.end;
    hide HeaderDwords, Cursor, LengthOf;
    WithinSlot(c, page, 0, 4 * n + 16);
    WithinSlot(c, page, 16, 4 * ToSend(n));
  }

  lemma SlotHeader(ptr: nat, page: nat)
    requires ptr % 4096 == 0 && page == ptr / 4096
    ensures ptr == 4096 * page && ptr / 4 * 4 == ptr && HeaderLength(ptr) == 4
  {
    assert ptr == 4 * (1024 * page) && ptr / 4 == 1024 * page;
    assert 1024 * page % 2 == 0 by { assert 1024 * page == 2 * (512 * page); }
  }

  lemma WithinSlot(c: Config, page: nat, offset: nat, n: nat)
    requires c.start <= 4096 * page && 4096 * page + 4096 <= c.end && 0 < n <= 256 && offset + n <= 4096
    ensures Within(c, 4096 * page + offset, n)
  {
    PageOf(page, offset);
    PageOf(page, offset + n - 1);
  }

  // A beat takes 32 bytes of the room.
  lemma BeatTakes(w: Config, address: nat, left: nat)
    requires 0 < left && Within(w, address, 4 * ToSend(left))
    ensures Within(w, address, 32)
    ensures left > 8 ==> Within(w, address + 32, 4 * ToSend(left - 8))
  {
  }

  lemma PtrSafe(w: Config, c: Config, ptr: nat)
    requires WindowOk(w) && !TopSlot(w) && c.start == w.start && c.end == w.end && InWindow(w, ptr)
    ensures InWindow(w, Advance(c, ptr))
  {
    AdvanceStaysInWindow(w, ptr);
  }

  // The oldest packet's header goes out at the pointer, if the pointer is set.
  lemma {:induction false} HeaderSafe(w: Config, s: State, c: Config, sent: seq<TlpBeat>)
    requires WindowOk(w) && c.start == w.start && c.end == w.end && Safe(w, s, sent)
    requires PacketReady(s) && !s.running
    ensures var s' := Step(s, c);
            && s'.left <= FRAGMENT
            && (s'.valid ==> BeatWithin(w, sent, s'.beat)
                             && Within(w, Cursor(sent + Sends(s')), 4 * ToSend(s'.left)))
  {
    var s' := Step(s, c);
    if s'.valid {
      HeaderWithin(c, s.ptr, s.metas[0], sent);
    }
    hide HeaderDwords, Cursor, ToSend, LengthOf;
  }

  lemma {:induction false} DataSafe(w: Config, s: State, c: Config, sent: seq<TlpBeat>)
    requires Safe(w, s, sent) && s.running
    ensures var s' := Step(s, c);
            && s'.left <= FRAGMENT
            && (s'.valid ==> BeatWithin(w, sent, s'.beat))
            && (s'.valid && s'.left > 0 ==> Within(w, Cursor(sent + Sends(s')), 4 * ToSend(s'.left)))
  {
    var s' := Step(s, c);
    if s'.valid {
      BeatTakes(w, Cursor(sent), s.left);
      assert (sent + [s'.beat])[..|sent|] == sent;
      assert Cursor(sent + [s'.beat]) == Cursor(sent) + 32;
    }
    hide Within, ToSend, Cursor, SwapAll, Advance;
  }

  lemma {:induction false} SafeStep(w: Config, s: State, i: Input, sent: seq<TlpBeat>)
    requires WindowOk(w) && !TopSlot(w) && i.c.start == w.start && i.c.end == w.end && Safe(w, s, sent)
    ensures var s' := AnyStep(s, i);
            && Safe(w, s', sent + Sends(s'))
            && (s'.valid ==> BeatWithin(w, sent, s'.beat))
  {
    if !i.reset {
      if PacketReady(s) && !s.running {
        HeaderSafe(w, s, i.c, sent);
      } else if s.running {
        DataSafe(w, s, i.c, sent);
      }
      if InWindow(w, s.ptr) {
        PtrSafe(w, i.c, s.ptr);
      }
    }
    hide Within, Cursor, ToSend, HeaderDwords, SwapAll, BeatWithin, Advance;
  }

  lemma {:induction false} RunSafe(w: Config, s: State, ins: seq<Input>)
    requires WindowOk(w) && !TopSlot(w) && InTheWindow(w, ins) && Safe(w, s, [])
    ensures Safe(w, Run(s, ins), Emitted(s, ins))
    decreases |ins|
  {
    hide AnyStep, Safe, BeatWithin, WindowOk, TopSlot;
    if ins != [] {
      RunSafe(w, s, ins[..|ins| - 1]);
      SafeStep(w, Run(s, ins[..|ins| - 1]), ins[|ins| - 1], Emitted(s, ins[..|ins| - 1]));
    }
  }

  lemma {:induction false} BeatsWithin(w: Config, s: State, ins: seq<Input>, n: nat)
    requires WindowOk(w) && !TopSlot(w) && InTheWindow(w, ins) && Safe(w, s, [])
    requires n < |Emitted(s, ins)|
    ensures BeatWithin(w, Emitted(s, ins)[..n], Emitted(s, ins)[n])
    decreases |ins|
  {
    hide AnyStep, Safe, BeatWithin, WindowOk, TopSlot;
    var last := |ins| - 1;
    var front := ins[..last];
    RunSafe(w, s, front);
    SafeStep(w, Run(s, front), ins[last], Emitted(s, front));
    if n < |Emitted(s, front)| {
      BeatsWithin(w, s, front, n);
      assert Emitted(s, ins)[..n] == Emitted(s, front)[..n];
    } else {
      assert Emitted(s, ins)[..n] == Emitted(s, front);
    }
  }

  // Every beat of every run, from power-up and whatever arrives, through resets, host writes of the buffer start
  // and changes of the identity: what it writes is inside the window and inside one page, and no TLP
  // announces more than 256 bytes.
  lemma WritesStayInWindow(w: Config, ins: seq<Input>, n: nat)
    requires WindowOk(w) && !TopSlot(w) && InTheWindow(w, ins)
    requires n < |Emitted(POWER_UP, ins)|
    ensures var beats := Emitted(POWER_UP, ins);
            BeatWithin(w, beats[..n], beats[n])
  {
    BeatsWithin(w, POWER_UP, ins, n);
  }
}
