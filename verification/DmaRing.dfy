/** What the receive and the transmit ring share: slots, pointers and slot metadata
    (driver/src/board.c, driver/qemu-device/fejkon.c).

    A slot is one 4 KiB frame area.  Its first word is the metadata; the frame itself is an opaque
    token, because the driver and the card model count the payload offset in different units.
 */
module DmaRing {
  import opened Bits

  const FRAME_SIZE: nat := 4096
  const SLOTS: nat := 128
  const RING_BYTES: nat := 4096 * 128
  const ADDRESS_LIMIT: nat := 0x1_0000_0000

  // ----- Frames and slots -----

  datatype Frame = Frame(port: nat, length: nat, token: int)

  datatype Slot = Slot(ctrl: nat, token: int)

  // Memory the card and the host share, by bus address
  type Memory = map<nat, Slot>

  const GARBAGE := Slot(0, 0)

  function Load(mem: Memory, address: nat): Slot
  {
    if address in mem then mem[address] else GARBAGE
  }

  // A frame the metadata word has room for
  predicate Fits(f: Frame)
  {
    f.port < 4 && f.length < 4096
  }

  // Lengths are stored in words of four bytes.
  function Rounded(f: Frame): Frame
  {
    f.(length := f.length / 4 * 4)
  }

  // The card's metadata: payload offset, length in words, port.
  function CardSlot(f: Frame): Slot
  {
    Slot(Or(Or(4, f.length / 4 * Pow2(4)), f.port * Pow2(14)), f.token)
  }

  // The driver's metadata, with every field masked to its width
  function DriverSlot(f: Frame): Slot
  {
    Slot(Or(Or(f.port % 4 * Pow2(14), f.length / 4 % 1024 * Pow2(4)), 4), f.token)
  }

  // Both sides read the metadata the same way.
  function Decode(s: Slot): Frame
  {
    Frame(s.ctrl / 16384 % 4, s.ctrl / 16 % 1024 * 4, s.token)
  }

  function PayloadOffset(s: Slot): nat
  {
    s.ctrl % 16
  }

  lemma FieldsDecode(words: nat, port: nat, token: int)
    requires words < 1024 && port < 4
    ensures Decode(Slot(4 + words * 16 + port * 16384, token)) == Frame(port, words * 4, token)
    ensures PayloadOffset(Slot(4 + words * 16 + port * 16384, token)) == 4
  {
  }

  // Bits 3 to 0 of the metadata are the payload offset, bits 13 to 4 the length in words and bits 15 and 14 the
  // port, whoever writes it and whoever reads it.
  lemma {:induction false} MetadataLayout(f: Frame, ctrl: nat, token: int)
    ensures Fits(f) ==> CardSlot(f) == Slot(4 + f.length / 4 * 0x10 + f.port * 0x4000, f.token)
    ensures DriverSlot(f) == Slot(4 + f.length / 4 % 0x400 * 0x10 + f.port % 4 * 0x4000, f.token)
    ensures Decode(Slot(ctrl, token)) == Frame(ctrl / 0x4000 % 4, ctrl / 0x10 % 0x400 * 4, token)
    ensures PayloadOffset(Slot(ctrl, token)) == ctrl % 0x10
  {
    hide Or, Pow2;
    Pow2Values();
    var words, port, cut := f.length / 4, f.port % 4, f.length / 4 % 1024;
    OrDisjoint(4, words, 4);
    if Fits(f) {
      OrDisjoint(4 + words * 16, f.port, 14);
    }
    OrCommutes(port * 16384, cut * 16);
    OrDisjoint(cut * 16, port, 14);
    OrCommutes(cut * 16 + port * 16384, 4);
    OrDisjoint(4, cut + port * 1024, 4);
  }

  lemma CardSlotDecodes(f: Frame)
    requires Fits(f)
    ensures Decode(CardSlot(f)) == Rounded(f) && PayloadOffset(CardSlot(f)) == 4
  {
    hide Or, Pow2;
    var words := f.length / 4;
    Pow2Values();
    OrDisjoint(4, words, 4);
    OrDisjoint(4 + words * 16, f.port, 14);
    FieldsDecode(words, f.port, f.token);
  }

  lemma DriverSlotDecodes(f: Frame)
    ensures Decode(DriverSlot(f)) == Frame(f.port % 4, f.length / 4 % 1024 * 4, f.token)
    ensures PayloadOffset(DriverSlot(f)) == 4
  {
    hide Or, Pow2;
    var port, words := f.port % 4, f.length / 4 % 1024;
    Pow2Values();
    OrCommutes(port * 16384, words * 16);
    OrDisjoint(words * 16, port, 14);
    OrCommutes(words * 16 + port * 16384, 4);
    OrDisjoint(4, words + port * 1024, 4);
    FieldsDecode(words, port, f.token);
  }

  lemma DecodedFits(slot: Slot)
    ensures Fits(Decode(slot))
  {
  }

  // ----- Ring pointers -----

  datatype DmaBuf = DmaBuf(start: nat, end: nat, write: nat, read: nat)

  // The card's pointer increment
  function DmaIncr(b: DmaBuf, p: nat, x: nat): nat
  {
    if b.end > p + x then p + x else b.start + (p + x - b.end)
  }

  // The host's pointer increment
  function HostIncr(start: nat, end: nat, p: nat): nat
  {
    if p + FRAME_SIZE == end then start else p + FRAME_SIZE
  }

  // The address of the slot that the i-th frame of a run occupies
  function SlotAddress(start: nat, i: nat): nat
  {
    start + FRAME_SIZE * (i % SLOTS)
  }

  lemma SlotAddressAdvances(start: nat, i: nat)
    ensures SlotAddress(start, i + 1) ==
              (if i % SLOTS == SLOTS - 1 then start else SlotAddress(start, i) + FRAME_SIZE)
  {
  }

  lemma DmaIncrAdvances(b: DmaBuf, i: nat)
    requires b.end == b.start + RING_BYTES
    ensures DmaIncr(b, SlotAddress(b.start, i), FRAME_SIZE) == SlotAddress(b.start, i + 1)
  {
    SlotAddressAdvances(b.start, i);
  }

  lemma HostIncrAdvances(start: nat, i: nat)
    ensures HostIncr(start, start + RING_BYTES, SlotAddress(start, i)) == SlotAddress(start, i + 1)
  {
    SlotAddressAdvances(start, i);
  }

  // Fewer than a full ring of frames apart, two frames have different slots.
  lemma SlotsDiffer(start: nat, i: nat, j: nat)
    requires i <= j < i + SLOTS
    ensures SlotAddress(start, i) == SlotAddress(start, j) <==> i == j
  {
  }

  // Host and bus addresses of a slot have the same offset.
  lemma SlotOffset(start: nat, dma: nat, i: nat)
    ensures SlotAddress(start, i) >= start
    ensures dma + (SlotAddress(start, i) - start) == SlotAddress(dma, i) < dma + RING_BYTES
  {
  }

  // The end register holds 32 bits.  The card's increment goes round the ring if and only if the end fits:
  // otherwise it leaves the ring at every slot, though the driver checks only that the start fits.
  lemma EndMustFit(dma: nat, i: nat)
    requires dma < ADDRESS_LIMIT
    ensures var b := DmaBuf(dma, (dma + 0x8_0000) % 0x1_0000_0000, dma, dma);
            && (DmaIncr(b, SlotAddress(dma, i), 4096) == SlotAddress(dma, i + 1) <==> dma + 0x8_0000 < 0x1_0000_0000)
            && (dma + 0x8_0000 >= 0x1_0000_0000 ==> DmaIncr(b, SlotAddress(dma, i), 4096) > dma + 0x8_0000)
  {
    var b := DmaBuf(dma, (dma + RING_BYTES) % ADDRESS_LIMIT, dma, dma);
    SlotOffset(dma, dma, i + 1);
    if dma + RING_BYTES < ADDRESS_LIMIT {
      DmaIncrAdvances(b, i);
    } else {
      assert b.end == dma + RING_BYTES - ADDRESS_LIMIT < dma;
      hide SlotAddress;
      SlotOffset(dma, dma, i);
    }
  }
}
