/** The card-to-host TLP sender (ip/fejkon_pcie_data/c2h_dma.sv) and the write pointer it feeds
    (ip/fejkon_pcie_data/fejkon_pcie_data.sv).

    Packets are staged: the data FIFO shows its oldest beat, and the metadata of each packet is
    queued beside it.  Beats and metadata arrive at any clock, also while the sender works.  The
    TLP sink is always ready, as the sender takes for granted.
 */
module C2hDma {
  import opened Bits
  import DmaRing

  const FRAME_SIZE: nat := 4096
  // dwords of a packet that fit a TLP beside the header beat
  const FRAGMENT: nat := 56
  const WORD_LIMIT: nat := 0x1_0000_0000

  // ----- Staged packets -----

  // A 32-byte beat: eight dwords, of which the last `empty` carry nothing.
  datatype Staged = Staged(dwords: seq<nat>, eop: bool, empty: nat)

  datatype Meta = Meta(length: nat, channel: nat)

  // The beats carry the dwords of data: eight in each but the last.
  predicate Carries(beats: seq<Staged>, data: seq<nat>)
  {
    && beats != [] && |beats[0].dwords| == 8
    && if |data| <= 8
       then |beats| == 1 && beats[0] == Staged(beats[0].dwords, true, 8 - |data|) && beats[0].dwords[..|data|] == data
       else beats[0] == Staged(data[..8], false, 0) && Carries(beats[1..], data[8..])
  }

  datatype Packet = Packet(channel: nat, data: seq<nat>, beats: seq<Staged>)
  {
    predicate Valid() {
      1 <= |data| < 1024 && channel < 4 && Carries(beats, data)
    }
    function MetaData(): Meta {
      Meta(|data|, channel)
    }
  }

  // ----- The sender -----

  datatype TlpBeat = TlpBeat(dwords: seq<nat>, sop: bool, eop: bool, empty: nat)

  // The memory window of the ring and the identity of the card
  datatype Config = Config(start: nat, end: nat, id: nat, idValid: bool)

  datatype State = State(
    running: bool, left: nat, readReq: bool, valid: bool, beat: TlpBeat,
    fifo: seq<Staged>, metas: seq<Meta>, ptr: nat)

  // A dword with its bytes in reverse
  function Swap(d: nat): nat
  {
    FromBytes(d % 256, d / 256 % 256, d / 256 / 256 % 256, d / 256 / 256 / 256 % 256)
  }

  // No byte is lost: swapping twice gives the dword back.
  lemma {:induction false} SwapUndoesSwap(d: nat)
    requires d < WORD_LIMIT
    ensures Swap(Swap(d)) == d
  {
    WordOf(d);
    BytesOf(d / 256 / 256 / 256 % 256, d / 256 / 256 % 256, d / 256 % 256, d % 256);
    BytesOf(d % 256, d / 256 % 256, d / 256 / 256 % 256, d / 256 / 256 / 256 % 256);
  }

  // Byte j of a dword, least significant first
  function ByteAt(d: nat, j: nat): nat
    requires j < 4
  {
    if j == 0 then d % 0x100 else if j == 1 then d / 0x100 % 0x100 else if j == 2 then d / 0x1_0000 % 0x100
    else d / 0x100_0000 % 0x100
  }

  // The bytes in the host's memory, which has the least significant byte of a dword first
  function HostBytes(ds: seq<nat>): (bs: seq<nat>)
    ensures |bs| == 4 * |ds|
  {
    seq(4 * |ds|, k requires 0 <= k < 4 * |ds| => ByteAt(ds[k / 4], k % 4))
  }

  // The characters of the words of a frame, in the order of transmission: most significant first
  function Characters(ds: seq<nat>): (cs: seq<nat>)
    ensures |cs| == 4 * |ds|
  {
    seq(4 * |ds|, k requires 0 <= k < 4 * |ds| => ByteAt(ds[k / 4], 3 - k % 4))
  }

  lemma ByteSwapped(d: nat, j: nat)
    requires j < 4
    ensures ByteAt(Swap(d), j) == ByteAt(d, 3 - j)
  {
    BytesOf(d % 256, d / 256 % 256, d / 256 / 256 % 256, d / 256 / 256 / 256 % 256);
    var w := Swap(d);
    assert w / 0x1_0000 == w / 256 / 256 && w / 0x100_0000 == w / 256 / 256 / 256;
    assert d / 0x1_0000 == d / 256 / 256 && d / 0x100_0000 == d / 256 / 256 / 256;
    hide Swap;
  }

  // The host reads swapped dwords in the order of transmission.
  lemma {:induction false} HostReadsCharacters(ds: seq<nat>)
    ensures HostBytes(SwapAll(ds)) == Characters(ds)
  {
    hide ByteAt, Swap;
    forall k | 0 <= k < 4 * |ds|
      ensures HostBytes(SwapAll(ds))[k] == Characters(ds)[k]
    {
      ByteSwapped(ds[k / 4], k % 4);
    }
  }

  function SwapAll(ds: seq<nat>): (r: seq<nat>)
    ensures |r| == |ds|
  {
    seq(|ds|, i requires 0 <= i < |ds| => Swap(ds[i]))
  }

  function Min(a: nat, b: nat): nat
  {
    if a < b then a else b
  }

  // The payload begins at dword 4 when the address is aligned to eight bytes, else at dword 3.
  function DataStart(ptr: nat): nat
  {
    if ptr / 4 % 2 == 0 then 4 else 3
  }

  // What the header beat itself adds to the payload
  function HeaderLength(ptr: nat): nat
  {
    8 - DataStart(ptr)
  }

  // The first payload dword: header length, packet length, channel
  function MetaWord(ptr: nat, m: Meta): nat
  {
    HeaderLength(ptr) + m.length * 16 + m.channel * 16384
  }

  function LengthField(ptr: nat, m: Meta): nat
  {
    Min(m.length, FRAGMENT) + HeaderLength(ptr)
  }

  function HeaderDwords(c: Config, ptr: nat, m: Meta): (ds: seq<nat>)
    ensures |ds| == 8
  {
    [0x4000_0000 + LengthField(ptr, m), c.id * 0x1_0000 + 0xFF, ptr / 4 * 4] +
    (if DataStart(ptr) == 4 then [0, MetaWord(ptr, m)] else [MetaWord(ptr, m), 0]) + [0, 0, 0]
  }

  predicate PacketReady(s: State)
  {
    s.metas != [] && s.metas[0].length != 0 && s.fifo != []
  }

  // The strobe that moves the write pointer
  predicate Done(s: State)
  {
    s.readReq && s.left <= 8 && s.valid
  }

  // One slot on, in 32-bit arithmetic
  function Advance(c: Config, ptr: nat): nat
  {
    if (ptr + 2 * FRAME_SIZE) % WORD_LIMIT >= c.end then c.start else (ptr + FRAME_SIZE) % WORD_LIMIT
  }

  const NOTHING := Staged([0, 0, 0, 0, 0, 0, 0, 0], false, 0)

  // What the staging FIFO shows
  function Head(fifo: seq<Staged>): Staged
  {
    if fifo == [] then NOTHING else fifo[0]
  }

  // The registers that one clock sets, apart from the queues and the pointer
  datatype Sender = Sender(running: bool, left: nat, readReq: bool, valid: bool, beat: TlpBeat)

  function Sending(s: State, c: Config): Sender
  {
    var head := Head(s.fifo);
    if PacketReady(s) && !s.running then
      Sender(true, Min(s.metas[0].length, FRAGMENT), true, s.ptr != 0 && c.idValid,
             TlpBeat(HeaderDwords(c, s.ptr, s.metas[0]), true, false, 0))
    else if s.running then
      Sender(!head.eop, if s.left <= 8 then 0 else s.left - 8, s.readReq && !head.eop, s.valid && s.left > 0,
             TlpBeat(SwapAll(head.dwords), false, head.eop || 0 < s.left <= 8, 4 * head.empty))
    else
      Sender(false, s.left, false, false, TlpBeat(s.beat.dwords, false, false, 0))
  }

  function Step(s: State, c: Config): State
  {
    var n := Sending(s, c);
    var fifo := if s.readReq && s.fifo != [] then s.fifo[1..] else s.fifo;
    var metas := if s.readReq && Head(s.fifo).eop && s.metas != [] then s.metas[1..] else s.metas;
    State(n.running, n.left, n.readReq, n.valid, n.beat, fifo, metas, if Done(s) then Advance(c, s.ptr) else s.ptr)
  }

  const ZEROS := TlpBeat([0, 0, 0, 0, 0, 0, 0, 0], false, false, 0)

  const POWER_UP := State(false, 0, false, false, ZEROS, [], [], 0)

  // A clock in reset.  The queues are emptied; the read request is the one register that is not cleared.
  function ResetStep(s: State): State
  {
    POWER_UP.(readReq := s.readReq)
  }

  // What a clock brings: the configuration at that clock, a reset, the host's write of the buffer start, and the
  // beats and metadata that arrive
  datatype Input = Input(c: Config, reset: bool, load: bool, beats: seq<Staged>, metas: seq<Meta>)

  function AnyStep(s: State, i: Input): State
  {
    if i.reset then ResetStep(s)
    else
      var t := Step(s, i.c);
      t.(fifo := t.fifo + i.beats, metas := t.metas + i.metas, ptr := if i.load then i.c.start else t.ptr)
  }

  class WritePointer {
    var ptr: nat

    constructor ()
      ensures ptr == 0
    {
      ptr := 0;
    }

    method Clock(c: Config, reset: bool, load: bool, done: bool)
      modifies this
      ensures ptr == if reset then 0
                     else if load then c.start
                     else if done then Advance(c, old(ptr))
                     else old(ptr)
    {
      if reset {
        ptr := 0;
      } else if load {
        ptr := c.start;
      } else if done {
        if (ptr + 4096 * 2) % WORD_LIMIT >= c.end {
          ptr := c.start;
        } else {
          ptr := (ptr + 4096) % WORD_LIMIT;
        }
      }
    }
  }

  class C2hSender {
    const pointer: WritePointer
    var txRunning: bool
    var txFragmentLeft: nat
    var stagingReadReq: bool
    var frmValid: bool
    var frmStartofpacket: bool
    var frmEndofpacket: bool
    var frmEmpty: nat
    var frmDword: seq<nat>
    var fifo: seq<Staged>
    var metas: seq<Meta>

    function View(): State
      reads this, pointer
    {
      State(txRunning, txFragmentLeft, stagingReadReq, frmValid,
            TlpBeat(frmDword, frmStartofpacket, frmEndofpacket, frmEmpty), fifo, metas, pointer.ptr)
    }

    constructor ()
      ensures fresh(pointer) && View() == POWER_UP
    {
      pointer := new WritePointer();
      txRunning, txFragmentLeft, stagingReadReq := false, 0, false;
      frmValid, frmStartofpacket, frmEndofpacket, frmEmpty := false, false, false, 0;
      frmDword := [0, 0, 0, 0, 0, 0, 0, 0];
      fifo, metas := [], [];
    }

    // The registers beside the queues and the pointer
    function Registers(): Sender
      reads this
    {
      Sender(txRunning, txFragmentLeft, stagingReadReq, frmValid,
             TlpBeat(frmDword, frmStartofpacket, frmEndofpacket, frmEmpty))
    }

    // The header beat of the oldest packet
    method SendHeader(c: Config)
      requires metas != []
      modifies this`txRunning, this`txFragmentLeft, this`stagingReadReq, this`frmValid,
               this`frmStartofpacket, this`frmEndofpacket, this`frmEmpty, this`frmDword
      ensures Registers() == Sender(true, Min(metas[0].length, FRAGMENT), true, pointer.ptr != 0 && c.idValid,
                                    TlpBeat(HeaderDwords(c, pointer.ptr, metas[0]), true, false, 0))
    {
      frmStartofpacket, frmEndofpacket, frmEmpty := true, false, 0;
      var m := metas[0];
      var dataStart := 4;
      if pointer.ptr / 4 % 2 == 1 {
        dataStart := 3;
      }
      var dataHeaderLength := 8 - dataStart;
      frmValid := pointer.ptr != 0 && c.idValid;
      var length := m.length + dataHeaderLength;
      txFragmentLeft := m.length;
      if m.length > 56 {
        length := 56 + dataHeaderLength;
        txFragmentLeft := 56;
      }
      frmDword := [0x4000_0000 + length, c.id * 0x1_0000 + 0xFF, pointer.ptr / 4 * 4, 0, 0, 0, 0, 0];
      frmDword := frmDword[dataStart := dataHeaderLength + m.length * 16 + m.channel * 16384];
      txRunning := true;
      stagingReadReq := true;
    }

    // A data beat; beats beyond the fragment are dropped.
    method SendData(head: Staged)
      requires txRunning
      modifies this`txRunning, this`txFragmentLeft, this`stagingReadReq, this`frmValid,
               this`frmStartofpacket, this`frmEndofpacket, this`frmEmpty, this`frmDword
      ensures Registers() ==
              Sender(!head.eop, if old(txFragmentLeft) <= 8 then 0 else old(txFragmentLeft) - 8,
                     old(stagingReadReq) && !head.eop, old(frmValid) && old(txFragmentLeft) > 0,
                     TlpBeat(SwapAll(head.dwords), false, head.eop || 0 < old(txFragmentLeft) <= 8, 4 * head.empty))
    {
      hide SwapAll;
      frmStartofpacket := false;
      frmDword := SwapAll(head.dwords);
      frmEmpty := 4 * head.empty;
      frmEndofpacket := head.eop;
      if txFragmentLeft == 0 {
        frmValid := false;
      } else if txFragmentLeft <= 8 {
        frmEndofpacket := true;
        txFragmentLeft := 0;
      } else {
        txFragmentLeft := txFragmentLeft - 8;
      }
      if head.eop {
        stagingReadReq := false;
        txRunning := false;
      }
    }

    // One clock of the sender block
    method Send(c: Config, head: Staged)
      requires head == Head(fifo)
      modifies this`txRunning, this`txFragmentLeft, this`stagingReadReq, this`frmValid,
               this`frmStartofpacket, this`frmEndofpacket, this`frmEmpty, this`frmDword
      ensures Registers() == Sending(old(View()), c)
    {
      hide HeaderDwords, SwapAll, Min, Head;
      if metas != [] && metas[0].length != 0 && fifo != [] && !txRunning {
        SendHeader(c);
      } else if txRunning {
        SendData(head);
      } else {
        frmStartofpacket, frmEndofpacket, frmEmpty := false, false, 0;
        stagingReadReq := false;
        frmValid := false;
      }
    }

    method Reset()
      modifies this`txRunning, this`txFragmentLeft, this`frmValid, this`frmStartofpacket, this`frmEndofpacket,
               this`frmEmpty, this`frmDword, this`fifo, this`metas
      ensures Registers() == Sender(false, 0, old(stagingReadReq), false, ZEROS)
      ensures fifo == [] && metas == []
    {
      txRunning, txFragmentLeft, frmValid := false, 0, false;
      frmStartofpacket, frmEndofpacket, frmEmpty := false, false, 0;
      frmDword := [0, 0, 0, 0, 0, 0, 0, 0];
      fifo, metas := [], [];
    }

    // Beats and metadata are taken in after the oldest have been taken out.
    method Clock(i: Input)
      modifies this, pointer
      ensures View() == AnyStep(old(View()), i)
    {
      var head := Head(fifo);
      var pop := stagingReadReq;
      var done := !i.reset && stagingReadReq && txFragmentLeft <= 8 && frmValid;
      if i.reset {
        Reset();
      } else {
        Send(i.c, head);
        hide Sending, Head;
        if pop && fifo != [] {
          fifo := fifo[1..];
        }
        if pop && head.eop && metas != [] {
          metas := metas[1..];
        }
        fifo := fifo + i.beats;
        metas := metas + i.metas;
      }
      hide Advance;
      pointer.Clock(i.c, i.reset, i.load, done);
    }
  }

  // ----- Runs -----

  function Run(s: State, ins: seq<Input>): State
    decreases |ins|
  {
    if ins == [] then s else AnyStep(Run(s, ins[..|ins| - 1]), ins[|ins| - 1])
  }

  // What one clock adds to the stream
  function Sends(s: State): seq<TlpBeat>
  {
    if s.valid then [s.beat] else []
  }

  // What the sender puts on the TLP stream
  function Emitted(s: State, ins: seq<Input>): seq<TlpBeat>
    decreases |ins|
  {
    if ins == [] then []
    else
      Emitted(s, ins[..|ins| - 1]) + Sends(Run(s, ins))
  }

  // Between packets
  predicate Idle(s: State)
  {
    !s.running && !s.readReq
  }

  // ----- One packet -----

  // The data beats of a TLP that still has room for `left` dwords
  function DataBeats(beats: seq<Staged>, left: nat): seq<TlpBeat>
  {
    if beats == [] || left == 0 then []
    else
      [TlpBeat(SwapAll(beats[0].dwords), false, beats[0].eop || left <= 8, 4 * beats[0].empty)] +
      DataBeats(beats[1..], if left <= 8 then 0 else left - 8)
  }

  function TlpOf(c: Config, ptr: nat, p: Packet): seq<TlpBeat>
  {
    [TlpBeat(HeaderDwords(c, ptr, p.MetaData()), true, false, 0)] + DataBeats(p.beats, Min(|p.data|, FRAGMENT))
  }

  // The pointer moves once for a packet that fits a TLP and twice for one that is truncated.
  function PtrAfter(c: Config, ptr: nat, p: Packet): nat
  {
    if |p.data| <= FRAGMENT then Advance(c, ptr) else Advance(c, Advance(c, ptr))
  }

  // In the middle of a packet: the oldest beats carry data, and as much of it as fits is still to go.
  predicate MidPacket(s: State, beats: seq<Staged>, data: seq<nat>, rest: seq<Staged>)
  {
    && s.running && s.readReq && s.fifo == beats + rest && Carries(beats, data)
    && s.left <= |data| && (s.left == |data| || s.left % 8 == 0)
  }

  // Where the strobes of the data beats leave the pointer
  function PtrAfterBeats(c: Config, s: State, data: seq<nat>): nat
  {
    if !s.valid then s.ptr
    else if s.left == 0 || s.left == |data| then Advance(c, s.ptr)
    else Advance(c, Advance(c, s.ptr))
  }

  lemma OneBeat(s: State, c: Config, beats: seq<Staged>, data: seq<nat>, rest: seq<Staged>)
    requires MidPacket(s, beats, data, rest) && |data| > 8
    ensures MidPacket(Step(s, c), beats[1..], data[8..], rest)
    ensures Step(s, c).metas == s.metas
    ensures Step(s, c).valid == (s.valid && s.left > 0)
    ensures Step(s, c).left == if s.left <= 8 then 0 else s.left - 8
    ensures Step(s, c).beat == TlpBeat(SwapAll(beats[0].dwords), false, 0 < s.left <= 8, 0)
    ensures PtrAfterBeats(c, Step(s, c), data[8..]) == PtrAfterBeats(c, s, data)
  {
    hide SwapAll, Advance, Carries;
    BeatOf(beats, data);
    assert s.fifo[0] == beats[0] && s.fifo[1..] == beats[1..] + rest;
  }

  lemma BeatOf(beats: seq<Staged>, data: seq<nat>)
    requires Carries(beats, data)
    ensures beats != []
    ensures beats[0].eop <==> |data| <= 8
    ensures |data| <= 8 ==> |beats| == 1
    ensures |data| > 8 ==> beats[0].empty == 0 && Carries(beats[1..], data[8..])
  {
  }

  lemma LastBeat(s: State, c: Config, beats: seq<Staged>, data: seq<nat>, rest: seq<Staged>)
    requires MidPacket(s, beats, data, rest) && 0 < |data| <= 8
    ensures Idle(Step(s, c)) && Step(s, c).fifo == rest && Step(s, c).left == 0
    ensures Step(s, c).metas == if s.metas == [] then [] else s.metas[1..]
    ensures Step(s, c).valid == (s.valid && s.left > 0)
    ensures Step(s, c).beat == TlpBeat(SwapAll(beats[0].dwords), false, true, 4 * beats[0].empty)
    ensures Step(s, c).ptr == PtrAfterBeats(c, s, data)
  {
    hide SwapAll, Advance, Carries;
    BeatOf(beats, data);
    assert s.fifo[0] == beats[0] && s.fifo[1..] == rest;
  }

  // A TLP goes out only when the pointer is set and the card knows its own identity.
  predicate Sane(c: Config, ptr: nat)
  {
    ptr != 0 && c.idValid
  }

  lemma HeaderSent(s: State, c: Config, p: Packet, rest: seq<Staged>)
    requires Idle(s) && p.Valid() && s.fifo == p.beats + rest && s.metas != [] && s.metas[0] == p.MetaData()
    ensures MidPacket(Step(s, c), p.beats, p.data, rest)
    ensures Step(s, c).left == Min(|p.data|, FRAGMENT)
    ensures Step(s, c).valid == Sane(c, s.ptr)
    ensures Step(s, c).beat == TlpBeat(HeaderDwords(c, s.ptr, p.MetaData()), true, false, 0)
    ensures Step(s, c).metas == s.metas && Step(s, c).ptr == s.ptr
  {
    hide HeaderDwords, Carries;
    BeatOf(p.beats, p.data);
    assert s.fifo != [];
  }

  // ----- The window -----

  // Where a packet leaves the pointer, sent or not
  function NextPtr(c: Config, ptr: nat, p: Packet): nat
  {
    if Sane(c, ptr) then PtrAfter(c, ptr, p) else ptr
  }

  // The window the host gave has room for a slot, is aligned, and does not begin at address zero.
  predicate WindowOk(c: Config)
  {
    && 0 < c.start && c.start % FRAME_SIZE == 0 && c.end % FRAME_SIZE == 0
    && c.start + FRAME_SIZE <= c.end < WORD_LIMIT
  }

  // The slot is inside the window, and the last slot is in use only when it is the only one.
  predicate InWindow(c: Config, ptr: nat)
  {
    && c.start <= ptr && ptr % FRAME_SIZE == 0
    && (ptr + 2 * FRAME_SIZE <= c.end || (ptr == c.start && c.end == c.start + FRAME_SIZE))
  }

  // The one window whose pointer escapes: a single slot, and nothing above it but one more.
  predicate TopSlot(c: Config)
  {
    c.start + FRAME_SIZE == c.end && c.end + FRAME_SIZE == WORD_LIMIT
  }

  lemma AdvanceStaysInWindow(c: Config, ptr: nat)
    requires WindowOk(c) && InWindow(c, ptr)
    ensures InWindow(c, Advance(c, ptr)) <==> !TopSlot(c)
  {
  }

  lemma PtrStaysInWindow(c: Config, ptr: nat, p: Packet)
    requires WindowOk(c) && !TopSlot(c) && InWindow(c, ptr)
    ensures InWindow(c, PtrAfter(c, ptr, p)) && ptr != 0
  {
    hide Advance;
    AdvanceStaysInWindow(c, ptr);
    AdvanceStaysInWindow(c, Advance(c, ptr));
  }

  // ----- What a TLP says and what it carries -----

  // The dwords of a beat that count
  function Counted(b: TlpBeat): seq<nat>
    requires |b.dwords| == 8
  {
    b.dwords[..8 - b.empty / 4 % 8]
  }

  function DataPayload(beats: seq<TlpBeat>): seq<nat>
    requires forall i :: 0 <= i < |beats| ==> |beats[i].dwords| == 8
  {
    if beats == [] then [] else Counted(beats[0]) + DataPayload(beats[1..])
  }

  // The payload of a TLP: behind the three dwords of the header, and behind one more if its address is a multiple
  // of eight bytes
  function Payload(tlp: seq<TlpBeat>): seq<nat>
    requires tlp != [] && forall i :: 0 <= i < |tlp| ==> |tlp[i].dwords| == 8
  {
    tlp[0].dwords[if tlp[0].dwords[2] / 4 % 2 == 0 then 4 else 3..] + DataPayload(tlp[1..])
  }

  // One start, at the front, and one end, at the back
  predicate Framed(tlp: seq<TlpBeat>)
  {
    && tlp != []
    && (forall i :: 0 <= i < |tlp| ==> |tlp[i].dwords| == 8)
    && (forall i :: 0 <= i < |tlp| ==> (tlp[i].sop <==> i == 0))
    && (forall i :: 0 <= i < |tlp| ==> (tlp[i].eop <==> i == |tlp| - 1))
  }

  // Data beats of which only the last ends the packet
  predicate DataFramed(t: seq<TlpBeat>)
  {
    && t != []
    && (forall i :: 0 <= i < |t| ==> |t[i].dwords| == 8 && !t[i].sop && (t[i].eop <==> i == |t| - 1))
  }

  lemma FirstBeatCarries(beats: seq<Staged>, data: seq<nat>, left: nat)
    requires Carries(beats, data) && 0 < left <= |data| && (left == |data| || left % 8 == 0)
    ensures var b := TlpBeat(SwapAll(beats[0].dwords), false, beats[0].eop || left <= 8, 4 * beats[0].empty);
            && |b.dwords| == 8 && (b.eop <==> left <= 8)
            && Counted(b) == SwapAll(data[..Min(left, 8)])
  {
    assert forall i :: 0 <= i < Min(left, 8) ==> beats[0].dwords[i] == data[i] by {
      if |data| <= 8 {
        assert forall i :: 0 <= i < |data| ==> beats[0].dwords[..|data|][i] == data[i];
      }
    }
  }

  lemma SwapAllJoins(a: seq<nat>, b: seq<nat>)
    ensures SwapAll(a + b) == SwapAll(a) + SwapAll(b)
  {
  }

  lemma {:induction false} DataBeatsCarry(beats: seq<Staged>, data: seq<nat>, left: nat)
    requires Carries(beats, data) && 0 < left <= |data| && (left == |data| || left % 8 == 0)
    ensures DataFramed(DataBeats(beats, left))
    ensures DataPayload(DataBeats(beats, left)) == SwapAll(data[..left])
    decreases |beats|
  {
    BeatOf(beats, data);
    FirstBeatCarries(beats, data, left);
    hide SwapAll, Carries, Counted;
    var first := DataBeats(beats, left)[0];
    if left > 8 {
      DataBeatsCarry(beats[1..], data[8..], left - 8);
      SwapAllJoins(data[..8], data[8..][..left - 8]);
      assert data[..left] == data[..8] + data[8..][..left - 8];
      assert DataBeats(beats, left) == [first] + DataBeats(beats[1..], left - 8);
    } else {
      assert DataBeats(beats[1..], 0) == [];
      assert DataBeats(beats, left) == [first];
      assert DataPayload([first][1..]) == [];
      assert DataPayload([first]) == Counted(first);
    }
  }

  function Padding(n: nat): seq<nat>
  {
    seq(n, _ => 0)
  }

  // What a TLP of h dwords of metadata says and carries of its packet
  ghost predicate Says(c: Config, ptr: nat, p: Packet, h: nat, t: seq<TlpBeat>)
    requires Framed(t)
  {
    var n := if |p.data| < 56 then |p.data| else 56;
    var words := Payload(t);
    && |words| == h + n && h > 0
    // a memory write with a header of three dwords, of as many dwords as it carries
    && t[0].dwords[0] == 0x4000_0000 + |words|
    // by this card, with tag 0 and all bytes enabled, to the write pointer
    && t[0].dwords[1] == c.id * 0x1_0000 + 0xFF
    && t[0].dwords[2] == ptr / 4 * 4
    // the metadata and its padding,
    && words[0] == h + |p.data| * 16 + p.channel * 16384
    && (forall i :: 1 <= i < h ==> words[i] == 0)
    // and the packet, which the host reads in the order of transmission
    && HostBytes(words[h..]) == Characters(p.data[..n])
  }

  // A TLP has one start and one end.  Its Length field counts the payload exactly; the payload is the packet's
  // metadata, padding to a beat, and the packet, cut at 56 dwords.
  lemma {:induction false} TlpCarries(c: Config, ptr: nat, p: Packet)
    requires p.Valid()
    ensures var t := TlpOf(c, ptr, p);
            Framed(t) && Says(c, ptr, p, if ptr / 4 % 2 == 0 then 4 else 5, t) && |Payload(t)| <= 64
  {
    hide TlpOf, Framed, Payload, HostBytes, Characters, SwapAll, Packet.Valid;
    var n, h := Min(|p.data|, FRAGMENT), HeaderLength(ptr);
    PayloadIs(c, ptr, p);
    HostReadsCharacters(p.data[..n]);
    Behind(MetaWord(ptr, p.MetaData()), h - 1, SwapAll(p.data[..n]));
  }

  lemma Behind(m: nat, k: nat, rest: seq<nat>)
    ensures ([m] + Padding(k) + rest)[0] == m && ([m] + Padding(k) + rest)[k + 1..] == rest
    ensures forall i :: 1 <= i <= k ==> ([m] + Padding(k) + rest)[i] == 0
  {
  }

  lemma PayloadIs(c: Config, ptr: nat, p: Packet)
    requires p.Valid()
    ensures var t := TlpOf(c, ptr, p);
            && Framed(t)
            && Payload(t) == [MetaWord(ptr, p.MetaData())] + Padding(HeaderLength(ptr) - 1)
                             + SwapAll(p.data[..Min(|p.data|, FRAGMENT)])
            && t[0].dwords[0] == 0x4000_0000 + |Payload(t)|
            && t[0].dwords[1] == c.id * 0x1_0000 + 0xFF && t[0].dwords[2] == ptr / 4 * 4
  {
    DataBeatsCarry(p.beats, p.data, Min(|p.data|, FRAGMENT));
    HeaderPayload(c, ptr, p.MetaData());
    hide SwapAll, Carries, DataBeats, Swap, HeaderDwords, MetaWord;
  }

  // What the header beat says and carries
  lemma HeaderPayload(c: Config, ptr: nat, m: Meta)
    ensures var ds := HeaderDwords(c, ptr, m);
            && ds[0] == 0x4000_0000 + LengthField(ptr, m) && ds[1] == c.id * 0x1_0000 + 0xFF && ds[2] == ptr / 4 * 4
            && ds[if ds[2] / 4 % 2 == 0 then 4 else 3..] == [MetaWord(ptr, m)] + Padding(HeaderLength(ptr) - 1)
  {
    WordAligned(ptr);
    hide MetaWord, LengthField;
  }

  lemma WordAligned(ptr: nat)
    ensures ptr / 4 * 4 / 4 == ptr / 4
  {
  }

  // A packet takes one slot if and only if it fits a TLP or the window has no other slot to skip to; else it
  // leaves a slot unwritten behind it.
  lemma TruncatedSkipsSlot(c: Config, ptr: nat, p: Packet)
    requires WindowOk(c) && InWindow(c, ptr)
    ensures PtrAfter(c, ptr, p) == Advance(c, ptr) <==>
            |p.data| <= FRAGMENT || (c.end <= c.start + 2 * FRAME_SIZE && !TopSlot(c))
  {
  }

  // What the driver reads in the slot: the channel, the packet at the offset the metadata gives, in the order of
  // transmission, and a length that is right if and only if the packet was not cut.
  lemma {:induction false} DriverReadsPacket(c: Config, ptr: nat, p: Packet, token: int)
    requires p.Valid()
    ensures Framed(TlpOf(c, ptr, p))
    ensures var words := Payload(TlpOf(c, ptr, p));
            |words| > 0 &&
            var slot := DmaRing.Slot(words[0], token);
            var offset := DmaRing.PayloadOffset(slot);
            && DmaRing.Decode(slot) == DmaRing.Frame(p.channel, 4 * |p.data|, token)
            && offset <= |words|
            && HostBytes(words[offset..]) == Characters(p.data[..if |p.data| < 56 then |p.data| else 56])
            && (DmaRing.Decode(slot).length == 4 * |words[offset..]| <==> |p.data| <= 56)
  {
    hide *;
    TlpCarries(c, ptr, p);
    SaysIsRead(c, ptr, p, if ptr / 4 % 2 == 0 then 4 else 5, TlpOf(c, ptr, p), token);
  }

  lemma {:induction false} SaysIsRead(c: Config, ptr: nat, p: Packet, h: nat, t: seq<TlpBeat>, token: int)
    requires p.Valid() && Framed(t) && 4 <= h <= 5 && Says(c, ptr, p, h, t)
    ensures var words := Payload(t);
            |words| > 0 &&
            var slot := DmaRing.Slot(words[0], token);
            var offset := DmaRing.PayloadOffset(slot);
            && DmaRing.Decode(slot) == DmaRing.Frame(p.channel, 4 * |p.data|, token)
            && offset <= |words|
            && HostBytes(words[offset..]) == Characters(p.data[..if |p.data| < 56 then |p.data| else 56])
            && (DmaRing.Decode(slot).length == 4 * |words[offset..]| <==> |p.data| <= 56)
  {
    MetaFields(h, |p.data|, p.channel, token);
    hide Payload, Framed, Carries, HostBytes, Characters, DmaRing.Decode, DmaRing.PayloadOffset;
  }

  lemma {:induction false} MetaFields(h: nat, length: nat, channel: nat, token: int)
    requires 4 <= h <= 5 && length < 1024 && channel < 4
    ensures var slot := DmaRing.Slot(h + length * 16 + channel * 16384, token);
            DmaRing.Decode(slot) == DmaRing.Frame(channel, 4 * length, token) && DmaRing.PayloadOffset(slot) == h
  {
    var w := h + length * 16 + channel * 16384;
    assert w == h + 16 * (length + 1024 * channel);
    assert w / 16 == length + 1024 * channel;
    assert w / 16384 == channel;
  }
}
