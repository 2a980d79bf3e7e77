/** The PCI Express transaction layer packet codec of the test bench (ip/fejkon_pcie_data/pcie.py):
    byte enables, checks, printing and parsing, with and without the padding that the FPGA vendor's
    interface wants (sections 2.2.1, 2.2.5 and 2.2.7 of the PCI Express Base Specification).
 */
module Tlp {
  import opened Bits

  const FMT_3DW := 0
  const FMT_4DW := 1
  const FMT_3DW_DATA := 2
  const FMT_4DW_DATA := 3
  const WORD_LIMIT: nat := 0x1_0000_0000

  type byte = b: nat | b < 256

  datatype Error =
    | LengthMismatch | Crosses4K | BadIoLength | BadIoLastBe | ByteCountTooSmall
    | UnknownType | StructError | TooShort

  datatype Result<T> = Ok(value: T) | Err(error: Error)

  // ----- Identifiers -----

  datatype PcieId = PcieId(bus: nat, device: nat, func: nat)

  const NO_ID := PcieId(0, 0, 0)

  function IdToInt(id: PcieId): nat
  {
    Or(Or(id.bus % 256 * 256, id.device % 32 * 8), id.func % 8)
  }

  function IdFromInt(v: nat): PcieId
  {
    PcieId(Field(v, 256, 256), Field(v, 8, 32), Field(v, 1, 8))
  }

  predicate IdInRange(id: PcieId)
  {
    id.bus < 256 && id.device < 32 && id.func < 8
  }

  lemma IdToIntIs(id: PcieId)
    ensures IdToInt(id) == id.bus % 256 * 0x100 + id.device % 32 * 8 + id.func % 8
    ensures IdToInt(id) < 65536
  {
    hide Or, Pow2;
    var b, d, f := id.bus % 256, id.device % 32, id.func % 8;
    Pow2Values();
    OrCommutes(b * 256, d * 8);
    OrDisjoint(d * 8, b, 8);
    OrCommutes(b * 256 + d * 8, f);
    OrDisjoint(f, b * 32 + d, 3);
  }

  // An identifier survives being made a number if and only if its parts are in range.
  lemma IdRoundTrip(id: PcieId)
    ensures IdInRange(id) <==> IdFromInt(IdToInt(id)) == id
  {
    IdToIntIs(id);
    hide Or, IdToInt;
    var n, b, d, f := IdToInt(id), id.bus % 256, id.device % 32, id.func % 8;
    LastDigit(b * 32 + d, f, 8);
    LastDigit(b, d, 32);
    FieldOf(n, d * 8 + f, b, 0, 256, 256);
    assert IdFromInt(n) == PcieId(b, d, f);
  }

  lemma {:induction false} NumberRoundTrip(v: nat)
    ensures v < 65536 <==> IdToInt(IdFromInt(v)) == v
  {
    IdToIntIs(IdFromInt(v));
    hide Or, IdToInt;
    if v < 65536 {
      assert v / 256 < 256 && v / 8 / 32 == v / 256;
    }
  }

  // ----- The packet -----

  datatype Fields = Fields(
    fmt: nat, kind: nat, tc: nat, th: nat, td: nat, ep: nat, attr: nat, at: nat, length: nat,
    completerId: PcieId, status: nat, bcm: nat, byteCount: nat, requesterId: PcieId, destId: PcieId,
    tag: nat, firstBe: nat, lastBe: nat, lowerAddress: nat, address: nat, registerNumber: nat, data: seq<nat>)
  {
    predicate HasData() {
      fmt == FMT_3DW_DATA || fmt == FMT_4DW_DATA
    }
    predicate Long() {
      fmt == FMT_4DW || fmt == FMT_4DW_DATA
    }
    predicate Memory() {
      (kind == 0 && fmt <= FMT_4DW_DATA) || (kind == 1 && fmt <= FMT_4DW)
    }
    predicate Io() {
      kind == 2 && (fmt == FMT_3DW || fmt == FMT_3DW_DATA)
    }
    predicate Config() {
      (kind == 4 || kind == 5) && (fmt == FMT_3DW || fmt == FMT_3DW_DATA)
    }
    predicate Completion() {
      (kind == 10 || kind == 11) && (fmt == FMT_3DW || fmt == FMT_3DW_DATA)
    }
  }

  const FRESH := Fields(0, 0, 0, 0, 0, 0, 0, 0, 0, NO_ID, 0, 0, 0, NO_ID, NO_ID, 0, 0, 0, 0, 0, 0, [])

  // ----- Byte enables -----

  // Offset of the first byte that the first byte enable selects
  function FirstBeOffset(firstBe: nat): nat
  {
    if firstBe % 8 == 0 then 3 else if firstBe % 4 == 0 then 2 else if firstBe % 2 == 0 then 1 else 0
  }

  // Bytes after the last one that a byte enable selects
  function LastBeOffset(be: nat): nat
  {
    if be % 16 == 1 then 3 else if be % 16 / 2 == 1 then 2 else if be % 16 / 4 == 1 then 1 else 0
  }

  function ByteCount(t: Fields): int
  {
    t.length * 4 - FirstBeOffset(t.firstBe) - LastBeOffset(if t.length == 1 then t.firstBe else t.lastBe)
  }

  // The sum binds tighter than the mask.
  function LowerAddress(t: Fields): nat
  {
    And(t.address, 0x7c + FirstBeOffset(t.firstBe))
  }

  function FirstPad(addr: nat): (p: nat)
    ensures p < 4
  {
    addr % 4
  }

  function LastPad(addr: nat, n: nat): (p: nat)
    ensures p < 4
  {
    3 - (addr + n - 1) % 4
  }

  // Byte enables of the first and of the last word, when they are not the same word
  function FirstMask(pad: nat): nat
  {
    ShiftLeft(15, pad) % 16
  }

  function LastMask(pad: nat): nat
  {
    ShiftRight(15, pad)
  }

  function WithBe(t: Fields, addr: nat, n: nat): Fields
  {
    hide *;
    var p, q := FirstPad(addr), LastPad(addr, n);
    var length := (n + p + q + 3) / 4;
    var first, last := FirstMask(p), LastMask(q);
    var u := t.(address := addr / 4 * 4, length := length,
                firstBe := if length == 1 then And(first, last) else first,
                lastBe := if length == 1 then 0 else last);
    u.(lowerAddress := LowerAddress(u))
  }

  // ----- Checks -----

  function Check(t: Fields): Result<()>
  {
    if t.HasData() && t.length != |t.data| then Err(LengthMismatch)
    else if t.Memory() && t.length * 4 > 0x1000 - t.address % 0x1000 then Err(Crosses4K)
    else if t.Io() && t.length != 1 then Err(BadIoLength)
    else if t.Io() && t.lastBe != 0 then Err(BadIoLastBe)
    else if t.fmt == FMT_3DW_DATA && t.kind == 10 && t.byteCount + t.lowerAddress % 4 + 3 < t.length * 4 then
      Err(ByteCountTooSmall)
    else Ok(())
  }

  // What is wrong with a packet that is refused: data of another length, a memory request beyond its page, an I/O
  // request that is not of one word, and data of a completion beyond its byte count; the first of these is reported.
  lemma CheckRefuses(t: Fields)
    ensures var data := t.fmt in {2, 3} && t.length != |t.data|;
            var memory := (t.kind == 0 && t.fmt < 4) || (t.kind == 1 && t.fmt < 2);
            var page := memory && t.address % 4096 + 4 * t.length > 4096;
            var io := t.kind == 2 && t.fmt in {0, 2};
            var count := t.kind == 10 && t.fmt == 2 && 4 * t.length > t.byteCount + t.lowerAddress % 4 + 3;
            && (Check(t).Ok? <==> !data && !page && !(io && (t.length != 1 || t.lastBe != 0)) && !count)
            && (Check(t) == Err(LengthMismatch) <==> data)
            && (Check(t) == Err(Crosses4K) <==> !data && page)
            && (Check(t) == Err(BadIoLength) <==> !data && io && t.length != 1)
            && (Check(t) == Err(BadIoLastBe) <==> !data && io && t.length == 1 && t.lastBe != 0)
            && (Check(t) == Err(ByteCountTooSmall) <==> !data && count)
  {
  }

  // ----- Words and bytes -----

  predicate AllWords(ws: seq<nat>)
  {
    forall i :: 0 <= i < |ws| ==> ws[i] < WORD_LIMIT
  }

  function WordBytes(w: nat): (bs: seq<byte>)
    ensures |bs| == 4
  {
    [w / 256 / 256 / 256 % 256, w / 256 / 256 % 256, w / 256 % 256, w % 256]
  }

  // Words, most significant byte first
  function Serialise(ws: seq<nat>): (bs: seq<byte>)
    ensures |bs| == 4 * |ws|
  {
    if ws == [] then [] else WordBytes(ws[0]) + Serialise(ws[1..])
  }

  function Deserialise(bs: seq<byte>): (ws: seq<nat>)
    requires |bs| % 4 == 0
    ensures |ws| == |bs| / 4
  {
    if bs == [] then [] else [FromBytes(bs[0], bs[1], bs[2], bs[3])] + Deserialise(bs[4..])
  }

  function Take<T>(s: seq<T>, n: nat): seq<T>
  {
    if n < |s| then s[..n] else s
  }

  function Drop<T>(s: seq<T>, n: nat): seq<T>
  {
    if n < |s| then s[n..] else []
  }

  lemma {:induction false} DeserialiseSerialise(ws: seq<nat>)
    requires AllWords(ws)
    ensures Deserialise(Serialise(ws)) == ws
  {
    if ws != [] {
      DeserialiseSerialise(ws[1..]);
      WordOf(ws[0]);
      assert Serialise(ws)[4..] == Serialise(ws[1..]);
    }
  }

  lemma {:induction false} SerialiseJoins(a: seq<nat>, b: seq<nat>)
    ensures Serialise(a + b) == Serialise(a) + Serialise(b)
  {
    hide WordBytes;
    if a == [] {
      assert a + b == b;
    } else {
      assert (a + b)[1..] == a[1..] + b;
      assert Serialise(a + b) == WordBytes(a[0]) + Serialise(a[1..] + b);
      assert Serialise(a) == WordBytes(a[0]) + Serialise(a[1..]);
      SerialiseJoins(a[1..], b);
      hide Serialise;
      Associates(WordBytes(a[0]), Serialise(a[1..]), Serialise(b));
    }
  }

  // Cutting bytes at a word boundary cuts the words.
  lemma CutsAgree(ws: seq<nat>, n: nat)
    ensures Take(Serialise(ws), 4 * n) == Serialise(Take(ws, n))
    ensures Drop(Serialise(ws), 4 * n) == Serialise(Drop(ws, n))
  {
    if n < |ws| {
      SerialiseJoins(ws[..n], ws[n..]);
      assert ws == ws[..n] + ws[n..];
    }
  }

  // ----- Printing -----

  function Word0(t: Fields): nat
  {
    var l := t.length % 1024;
    var l := Or(l, t.at % 4 * 1024);
    var l := Or(l, t.attr % 4 * 4096);
    var l := Or(l, t.ep % 2 * 16384);
    var l := Or(l, t.td % 2 * 32768);
    var l := Or(l, t.th % 2 * 65536);
    var l := Or(l, t.attr / 4 % 2 * 4 * 65536);
    var l := Or(l, t.tc % 8 * 0x10_0000);
    var l := Or(l, t.kind % 32 * 0x100_0000);
    Or(l, t.fmt % 8 * 0x2000_0000)
  }

  function RequestWord(t: Fields): nat
  {
    Or(Or(Or(t.firstBe % 16, t.lastBe % 16 * 16), t.tag % 256 * 256), IdToInt(t.requesterId) * 65536)
  }

  // The low word of a long address keeps the bits of the high word.
  function AddressWords(t: Fields): seq<nat>
  {
    if t.Long() then
      var high := t.address / WORD_LIMIT % WORD_LIMIT;
      [high, Or(high, t.address % WORD_LIMIT / 4 * 4)]
    else
      [Or(0, t.address % WORD_LIMIT / 4 * 4)]
  }

  function HeaderWords(t: Fields): Result<seq<nat>>
  {
    if t.Config() then
      Ok([Word0(t), RequestWord(t), Or(t.registerNumber % 1024 * 4, IdToInt(t.destId) * 65536)])
    else if t.Memory() || t.Io() then
      Ok([Word0(t), RequestWord(t)] + AddressWords(t))
    else if t.Completion() then
      Ok([Word0(t),
          Or(Or(Or(t.byteCount % 4096, t.bcm % 2 * 4096), t.status % 8 * 8192), IdToInt(t.completerId) * 65536),
          Or(Or(t.lowerAddress % 128, t.tag % 256 * 256), IdToInt(t.requesterId) * 65536)])
    else Err(UnknownType)
  }

  function Words(t: Fields): Result<seq<nat>>
  {
    match HeaderWords(t)
    case Err(e) => Err(e)
    case Ok(h) => Ok(h + if t.HasData() then t.data else [])
  }

  function Packed(t: Fields): Result<seq<byte>>
  {
    if Check(t).Err? then Err(Check(t).error)
    else
      match Words(t)
      case Err(e) => Err(e)
      case Ok(ws) => if AllWords(ws) then Ok(Serialise(ws)) else Err(StructError)
  }

  // With four bytes of padding after the header, unless that is aligned already
  function IntelPacked(t: Fields): Result<seq<byte>>
  {
    match Packed(t)
    case Err(e) => Err(e)
    case Ok(b) =>
      if t.address / 4 % 2 != 0 then Ok(b)
      else
        var n := if t.Long() then 4 * 4 else 4 * 3;
        Ok(Take(b, n) + [0, 0, 0, 0] + Drop(b, n))
  }

  // ----- Parsing -----

  function WithHeader(t: Fields, w: nat): Fields
  {
    var u := t.(length := Field(w, 1, 1024), at := Field(w, 1024, 4),
                attr := Or(Field(w, 4096, 4), Field(w, 0x4_0000, 2) * 4),
                ep := Field(w, 16384, 2), td := Field(w, 32768, 2), th := Field(w, 65536, 2),
                tc := Field(w, 0x10_0000, 8), kind := Field(w, 0x100_0000, 32), fmt := Field(w, 0x2000_0000, 8));
    if u.HasData() && u.length == 0 then u.(length := 1024) else u
  }

  function WithRequest(t: Fields, w: nat): Fields
  {
    t.(firstBe := Field(w, 1, 16), lastBe := Field(w, 16, 16), tag := Field(w, 256, 256),
       requesterId := IdFromInt(w / 65536))
  }

  function ParsedAddress(t: Fields, ws: seq<nat>): nat
    requires |ws| >= 3 && (t.Long() ==> |ws| >= 4)
  {
    if t.Long() then Or(ws[2] % WORD_LIMIT * WORD_LIMIT, ws[3] % WORD_LIMIT / 4 * 4)
    else ws[2] % WORD_LIMIT / 4 * 4
  }

  // The address of a request, or the register and the destination of a configuration request
  function WithTarget(t: Fields, ws: seq<nat>): Fields
    requires |ws| >= 3 && (t.Long() ==> |ws| >= 4)
  {
    if t.Config() then t.(registerNumber := ShiftRight(ws[2] / 4, 0x3ff), destId := IdFromInt(ws[2] / 65536))
    else t.(address := ParsedAddress(t, ws))
  }

  function WithCompletionHead(t: Fields, w: nat): Fields
  {
    t.(byteCount := Field(w, 1, 4096), bcm := Field(w, 4096, 2), status := Field(w, 8192, 8),
       completerId := IdFromInt(w / 65536))
  }

  function WithCompletionTail(t: Fields, w: nat): Fields
  {
    t.(byteCount := if t.byteCount == 0 then 4096 else t.byteCount, lowerAddress := Field(w, 1, 128),
       tag := Field(w, 256, 256), requesterId := IdFromInt(w / 65536))
  }

  // The fields between the first word and the data
  function WithBody(t: Fields, ws: seq<nat>): Result<Fields>
  {
    if !(t.Config() || t.Memory() || t.Io() || t.Completion()) then Err(UnknownType)
    else if |ws| < 3 || (t.Long() && |ws| < 4) then Err(TooShort)
    else if t.Completion() then Ok(WithCompletionTail(WithCompletionHead(t, ws[1]), ws[2]))
    else Ok(WithTarget(WithRequest(t, ws[1]), ws))
  }

  // What is set when a packet turns out too short: the fields of the words that are there
  function BodyAfter(t: Fields, ws: seq<nat>): Fields
  {
    var r := WithBody(t, ws);
    if r.Ok? then r.value
    else if r.error.UnknownType? || |ws| < 2 then t
    else if t.Completion() then WithCompletionHead(t, ws[1])
    else WithRequest(t, ws[1])
  }

  lemma RequestKeepsFormat(t: Fields, w: nat)
    ensures WithRequest(t, w).fmt == t.fmt && WithRequest(t, w).kind == t.kind
  {
  }

  lemma BodyKeepsFormat(t: Fields, ws: seq<nat>)
    requires WithBody(t, ws).Ok?
    ensures WithBody(t, ws).value.fmt == t.fmt && WithBody(t, ws).value.kind == t.kind
  {
  }

  lemma BodyAfterSuccess(t: Fields, ws: seq<nat>)
    requires WithBody(t, ws).Ok?
    ensures BodyAfter(t, ws) == WithBody(t, ws).value
    ensures |ws| >= 3 && (WithBody(t, ws).value.Long() ==> |ws| >= 4)
  {
  }

  function WithData(t: Fields, ws: seq<nat>): Fields
    requires |ws| >= 3 && (t.Long() ==> |ws| >= 4)
  {
    if |ws| == 3 then t
    else if t.fmt == FMT_3DW_DATA then t.(data := ws[3..])
    else if t.fmt == FMT_4DW_DATA then t.(data := ws[4..])
    else t
  }

  function UnpackWords(t: Fields, ws: seq<nat>): Result<Fields>
  {
    if ws == [] then Err(TooShort)
    else
      match WithBody(WithHeader(t, ws[0]), ws)
      case Err(e) => Err(e)
      case Ok(u) =>
        var v := WithData(u, ws);
        Ok(v.(lowerAddress := LowerAddress(v)))
  }

  // The fields after parsing, whether it succeeds or not
  function WordsAfter(t: Fields, ws: seq<nat>): Fields
  {
    if ws == [] then t
    else
      var h := WithHeader(t, ws[0]);
      if WithBody(h, ws).Err? then BodyAfter(h, ws)
      else
        var v := WithData(WithBody(h, ws).value, ws);
        v.(lowerAddress := LowerAddress(v))
  }

  function Checked(r: Result<Fields>): Result<Fields>
  {
    if r.Ok? && Check(r.value).Err? then Err(Check(r.value).error) else r
  }

  function Unpacked(t: Fields, bs: seq<byte>, check: bool): Result<Fields>
  {
    if |bs| % 4 != 0 then Err(StructError)
    else
      var r := UnpackWords(t, Deserialise(bs));
      if check then Checked(r) else r
  }

  function UnpackAfter(t: Fields, bs: seq<byte>): Fields
  {
    if |bs| % 4 != 0 then t else WordsAfter(t, Deserialise(bs))
  }

  function IntelUnpacked(t: Fields, bs: seq<byte>): Result<Fields>
  {
    match Unpacked(t, Take(bs, 32 * 4), false)
    case Err(e) => Err(e)
    case Ok(u) =>
      if u.address / 4 % 2 != 0 then Unpacked(u, bs, true)
      else if u.Long() then Unpacked(u, Take(bs, 4 * 4) + Drop(bs, 4 * 5), true)
      else Unpacked(u, Take(bs, 4 * 3) + Drop(bs, 4 * 4), true)
  }

  function IntelAfter(t: Fields, bs: seq<byte>): Fields
  {
    var u := UnpackAfter(t, Take(bs, 32 * 4));
    if Unpacked(t, Take(bs, 32 * 4), false).Err? then u
    else if u.address / 4 % 2 != 0 then UnpackAfter(u, bs)
    else if u.Long() then UnpackAfter(u, Take(bs, 4 * 4) + Drop(bs, 4 * 5))
    else UnpackAfter(u, Take(bs, 4 * 3) + Drop(bs, 4 * 4))
  }

  // A parse that succeeds leaves what it returns.
  lemma AfterSuccess(t: Fields, bs: seq<byte>, check: bool)
    ensures Unpacked(t, bs, check).Ok? ==> Unpacked(t, bs, check).value == UnpackAfter(t, bs)
  {
    hide Deserialise, WithHeader, WithBody, WithData, LowerAddress, Check;
  }

  lemma IntelAfterSuccess(t: Fields, bs: seq<byte>)
    ensures IntelUnpacked(t, bs).Ok? ==> IntelUnpacked(t, bs).value == IntelAfter(t, bs)
  {
    var first := Take(bs, 32 * 4);
    AfterSuccess(t, first, false);
    hide Unpacked, UnpackAfter, Take, Drop;
    var u := UnpackAfter(t, first);
    AfterSuccess(u, bs, true);
    AfterSuccess(u, Take(bs, 4 * 4) + Drop(bs, 4 * 5), true);
    AfterSuccess(u, Take(bs, 4 * 3) + Drop(bs, 4 * 4), true);
  }

  // ----- What parsing recovers -----

  // Values the fields of a request have room for, and the fields that a request does not carry at rest
  predicate RequestInRange(t: Fields)
  {
    && (t.Memory() || t.Io())
    && t.tc < 8 && t.th < 2 && t.td < 2 && t.ep < 2 && t.attr < 8 && t.at < 4
    && t.tag < 256 && t.firstBe < 16 && t.lastBe < 16 && IdInRange(t.requesterId)
    && t.completerId == NO_ID && t.status == 0 && t.bcm == 0 && t.byteCount == 0
    && t.destId == NO_ID && t.registerNumber == 0
    && t.address % 4 == 0 && t.address < (if t.Long() then WORD_LIMIT * WORD_LIMIT else WORD_LIMIT)
    && AllWords(t.data) && (!t.HasData() ==> t.data == [])
    && t.lowerAddress == LowerAddress(t)
  }

  // The header word as a number, field by field
  function Word0Sum(t: Fields): nat
  {
    t.length % 1024 + 1024 * (t.at % 4 + 4 * (t.attr % 4 + 4 * (t.ep % 2 + 2 * (t.td % 2 + 2 * (t.th % 2 +
    4 * (t.attr / 4 % 2 + 4 * (t.tc % 8 + 16 * (t.kind % 32 + 32 * (t.fmt % 8)))))))))
  }

  lemma Word0Is(t: Fields)
    ensures Word0(t) == Word0Sum(t) && Word0(t) < WORD_LIMIT
  {
    hide Or, Pow2;
    Pow2Values();
    var l0 := t.length % 1024;
    OrDisjoint(l0, t.at % 4, 10);
    var l1 := l0 + t.at % 4 * 1024;
    OrDisjoint(l1, t.attr % 4, 12);
    var l2 := l1 + t.attr % 4 * 4096;
    OrDisjoint(l2, t.ep % 2, 14);
    var l3 := l2 + t.ep % 2 * 16384;
    OrDisjoint(l3, t.td % 2, 15);
    var l4 := l3 + t.td % 2 * 32768;
    OrDisjoint(l4, t.th % 2, 16);
    var l5 := l4 + t.th % 2 * 65536;
    OrDisjoint(l5, t.attr / 4 % 2, 18);
    var l6 := l5 + t.attr / 4 % 2 * 4 * 65536;
    OrDisjoint(l6, t.tc % 8, 20);
    var l7 := l6 + t.tc % 8 * 0x10_0000;
    OrDisjoint(l7, t.kind % 32, 24);
    OrDisjoint(l7 + t.kind % 32 * 0x100_0000, t.fmt % 8, 29);
  }

  // The fields of the lower and of the upper half of the header word
  lemma LowerHalf(w: nat, length: nat, at: nat, attr: nat, ep: nat, td: nat, rest: nat)
    requires length < 1024 && at < 4 && attr < 4 && ep < 2 && td < 2
    requires w == length + 1024 * (at + 4 * (attr + 4 * (ep + 2 * (td + 2 * rest))))
    ensures Field(w, 1, 1024) == length && Field(w, 1024, 4) == at && Field(w, 4096, 4) == attr
    ensures Field(w, 16384, 2) == ep && Field(w, 32768, 2) == td
  {
    FieldOf(w, 0, length, at + 4 * (attr + 4 * (ep + 2 * (td + 2 * rest))), 1, 1024);
    FieldOf(w, length, at, attr + 4 * (ep + 2 * (td + 2 * rest)), 1024, 4);
    FieldOf(w, length + 1024 * at, attr, ep + 2 * (td + 2 * rest), 4096, 4);
    FieldOf(w, length + 1024 * (at + 4 * attr), ep, td + 2 * rest, 16384, 2);
    FieldOf(w, length + 1024 * (at + 4 * (attr + 4 * ep)), td, rest, 32768, 2);
  }

  lemma UpperHalf(w: nat, low: nat, th: nat, attr: nat, tc: nat, kind: nat, fmt: nat)
    requires low < 65536 && th < 2 && attr < 2 && tc < 8 && kind < 32 && fmt < 8
    requires w == low + 65536 * (th + 4 * (attr + 4 * (tc + 16 * (kind + 32 * fmt))))
    ensures Field(w, 65536, 2) == th && Field(w, 0x4_0000, 2) == attr && Field(w, 0x10_0000, 8) == tc
    ensures Field(w, 0x100_0000, 32) == kind && Field(w, 0x2000_0000, 8) == fmt
  {
    FieldOf(w, low, th, 2 * (attr + 4 * (tc + 16 * (kind + 32 * fmt))), 65536, 2);
    FieldOf(w, low + 65536 * th, attr, 2 * (tc + 16 * (kind + 32 * fmt)), 0x4_0000, 2);
    FieldOf(w, low + 65536 * (th + 4 * attr), tc, 2 * (kind + 32 * fmt), 0x10_0000, 8);
    FieldOf(w, low + 65536 * (th + 4 * (attr + 4 * tc)), kind, fmt, 0x100_0000, 32);
    FieldOf(w, low + 65536 * (th + 4 * (attr + 4 * (tc + 16 * kind))), fmt, 0, 0x2000_0000, 8);
  }

  lemma Word0Fields(t: Fields)
    ensures var w := Word0(t);
            && Field(w, 1, 1024) == t.length % 1024 && Field(w, 1024, 4) == t.at % 4 && Field(w, 4096, 4) == t.attr % 4
            && Field(w, 16384, 2) == t.ep % 2 && Field(w, 32768, 2) == t.td % 2 && Field(w, 65536, 2) == t.th % 2
            && Field(w, 0x4_0000, 2) == t.attr / 4 % 2 && Field(w, 0x10_0000, 8) == t.tc % 8
            && Field(w, 0x100_0000, 32) == t.kind % 32 && Field(w, 0x2000_0000, 8) == t.fmt % 8
  {
    Word0Is(t);
    hide Word0;
    var w, attr, th, tc, kind, fmt := Word0(t), t.attr / 4 % 2, t.th % 2, t.tc % 8, t.kind % 32, t.fmt % 8;
    var low := t.length % 1024 + 1024 * (t.at % 4 + 4 * (t.attr % 4 + 4 * (t.ep % 2 + 2 * (t.td % 2))));
    var rest := th + 4 * (attr + 4 * (tc + 16 * (kind + 32 * fmt)));
    LowerHalf(w, t.length % 1024, t.at % 4, t.attr % 4, t.ep % 2, t.td % 2, rest);
    UpperHalf(w, low, th, attr, tc, kind, fmt);
  }

  lemma RequestWordIs(t: Fields)
    ensures RequestWord(t) < WORD_LIMIT
    ensures RequestWord(t) == t.firstBe % 16 + t.lastBe % 16 * 0x10 + t.tag % 256 * 0x100 +
                              IdToInt(t.requesterId) * 0x1_0000
    ensures Field(RequestWord(t), 1, 16) == t.firstBe % 16 && Field(RequestWord(t), 16, 16) == t.lastBe % 16
    ensures Field(RequestWord(t), 256, 256) == t.tag % 256 && RequestWord(t) / 65536 == IdToInt(t.requesterId)
  {
    hide Or, Pow2, IdToInt;
    Pow2Values();
    IdToIntIs(t.requesterId);
    var a, b, c, d := t.firstBe % 16, t.lastBe % 16, t.tag % 256, IdToInt(t.requesterId);
    OrDisjoint(a, b, 4);
    OrDisjoint(a + b * 16, c, 8);
    OrDisjoint(a + b * 16 + c * 256, d, 16);
    var w := a + b * 16 + c * 256 + d * 65536;
    FieldOf(w, 0, a, b + c * 16 + d * 4096, 1, 16);
    FieldOf(w, a, b, c + d * 256, 16, 16);
    FieldOf(w, a + b * 16, c, d, 256, 256);
    LastDigit(d, a + b * 16 + c * 256, 65536);
  }

  // Length 1024 is written as zero, and zero is read back as 1024 only where there is data.
  function ParsedLength(t: Fields): nat
  {
    if t.HasData() && t.length % 1024 == 0 then 1024 else t.length % 1024
  }

  // Values the fields of the first word have room for
  predicate HeaderInRange(t: Fields)
  {
    && t.fmt < 8 && t.kind < 32
    && t.tc < 8 && t.th < 2 && t.td < 2 && t.ep < 2 && t.attr < 8 && t.at < 4
  }

  lemma HeaderParses(t0: Fields, t: Fields)
    requires HeaderInRange(t)
    ensures WithHeader(t0, Word0(t)) ==
            t0.(length := ParsedLength(t), at := t.at, attr := t.attr, ep := t.ep, td := t.td, th := t.th,
                tc := t.tc, kind := t.kind, fmt := t.fmt)
  {
    Word0Fields(t);
    hide Word0, Or, Pow2, And, LowerAddress, IdInRange, Field;
    Pow2Values();
    OrDisjoint(t.attr % 4, t.attr / 4 % 2, 2);
  }

  function HighWord(t: Fields): nat
  {
    t.address / WORD_LIMIT
  }

  function LowWord(t: Fields): nat
  {
    t.address % WORD_LIMIT
  }

  // The address that printing and parsing gives
  function AddressBack(t: Fields): nat
  {
    if t.Long() then HighWord(t) * WORD_LIMIT + Or(HighWord(t), LowWord(t)) / 4 * 4 else t.address
  }

  lemma LongAddress(high: nat, low: nat)
    requires high < WORD_LIMIT && low < WORD_LIMIT
    ensures Or(high, low) < WORD_LIMIT
    ensures Or(high * WORD_LIMIT, Or(high, low) / 4 * 4) == high * WORD_LIMIT + Or(high, low) / 4 * 4
  {
    hide Or, Pow2;
    Pow2Values();
    OrBounded(high, low, 32);
    var l := Or(high, low) / 4 * 4;
    OrCommutes(high * WORD_LIMIT, l);
    OrDisjoint(l, high, 32);
  }

  lemma AddressParses(t: Fields, ws: seq<nat>)
    requires RequestInRange(t) && |ws| >= 2 + |AddressWords(t)| && ws[2..2 + |AddressWords(t)|] == AddressWords(t)
    ensures AllWords(AddressWords(t)) && |AddressWords(t)| == if t.Long() then 2 else 1
    ensures ParsedAddress(t, ws) == AddressBack(t)
  {
    hide Or, And, LowerAddress, IdInRange;
    var a := AddressWords(t);
    assert ws[2] == a[0];
    if t.Long() {
      var high, low := HighWord(t), LowWord(t);
      assert ws[3] == a[1];
      assert low / 4 * 4 == low;
      assert high < WORD_LIMIT;
      LongAddress(high, low);
      assert a == [high, Or(high, low)];
    } else {
      OrZero(t.address);
    }
  }

  // The packet that parsing leaves: every field the request carries, over what was there before
  function Parsed(t0: Fields, t: Fields, rest: seq<nat>): Fields
  {
    var u := t0.(length := ParsedLength(t), at := t.at, attr := t.attr, ep := t.ep, td := t.td, th := t.th,
                 tc := t.tc, kind := t.kind, fmt := t.fmt,
                 firstBe := t.firstBe, lastBe := t.lastBe, tag := t.tag, requesterId := t.requesterId,
                 address := AddressBack(t),
                 data := if t.HasData() && (t.Long() || rest != []) then rest else t0.data);
    u.(lowerAddress := LowerAddress(u))
  }

  // The words of the header of a memory or I/O request
  function RequestHeader(t: Fields): seq<nat>
  {
    [Word0(t), RequestWord(t)] + AddressWords(t)
  }

  lemma RequestHeaderLength(t: Fields)
    requires RequestInRange(t)
    ensures |RequestHeader(t)| == if t.Long() then 4 else 3
    ensures RequestHeader(t)[0] == Word0(t)
  {
  }

  // Whatever follows the header, parsing finds the fields that were printed.
  lemma {:induction false} RequestParses(t0: Fields, t: Fields, rest: seq<nat>)
    requires RequestInRange(t)
    ensures UnpackWords(t0, RequestHeader(t) + rest) == Ok(Parsed(t0, t, rest))
  {
    assert HeaderInRange(t);
    hide RequestHeader, RequestInRange, WithHeader, WithBody, ParsedLength, LowerAddress, AddressBack, Word0;
    var h := RequestHeader(t);
    var ws := h + rest;
    RequestHeaderLength(t);
    HeaderParses(t0, t);
    BodyParses(WithHeader(t0, ws[0]), t, rest);
    assert ws[|h|..] == rest;
  }

  lemma BodyParses(u: Fields, t: Fields, rest: seq<nat>)
    requires RequestInRange(t) && u.fmt == t.fmt && u.kind == t.kind
    ensures WithBody(u, RequestHeader(t) + rest) ==
            Ok(u.(firstBe := t.firstBe, lastBe := t.lastBe, tag := t.tag, requesterId := t.requesterId,
                  address := AddressBack(t)))
  {
    var ws := RequestHeader(t) + rest;
    AddressParses(t, ws);
    RequestWordParses(u, t);
    assert ParsedAddress(u, ws) == ParsedAddress(t, ws);
    hide Or, And, Word0, RequestWord, AddressWords, ParsedAddress, WithRequest, IdToInt, LowerAddress, AddressBack,
         IdInRange;
    assert ws[1] == RequestWord(t);
  }

  lemma RequestWordParses(u: Fields, t: Fields)
    requires t.tag < 256 && t.firstBe < 16 && t.lastBe < 16 && IdInRange(t.requesterId)
    ensures WithRequest(u, RequestWord(t)) ==
            u.(firstBe := t.firstBe, lastBe := t.lastBe, tag := t.tag, requesterId := t.requesterId)
  {
    RequestWordIs(t);
    IdRoundTrip(t.requesterId);
    hide RequestWord, IdToInt, IdFromInt, Or, And, LowerAddress;
  }

  lemma {:induction false} RequestPacks(t: Fields)
    requires RequestInRange(t) && Check(t).Ok?
    ensures Packed(t) == Ok(Serialise(RequestHeader(t) + t.data)) && AllWords(RequestHeader(t) + t.data)
  {
    Word0Is(t);
    RequestWordIs(t);
    AddressParses(t, RequestHeader(t));
    hide Word0, RequestWord, AddressWords, Check;
  }

  // What the word format can say: no read of 1024 dwords, no write of none, and in the high half of a
  // long address no bit that the low half does not have.
  predicate Encodable(t: Fields)
  {
    && (if t.HasData() then t.length != 0 else t.length != 1024)
    && (t.Long() ==> And(HighWord(t) / 4, LowWord(t) / 4) == HighWord(t) / 4)
  }

  lemma OrQuarter(a: nat, b: nat)
    ensures Or(a, b) / 4 == Or(a / 4, b / 4)
  {
    BitwiseHalves(a, b);
    BitwiseHalves(a / 2, b / 2);
    hide Or;
    assert a / 2 / 2 == a / 4 && b / 2 / 2 == b / 4 && Or(a, b) / 2 / 2 == Or(a, b) / 4;
  }

  lemma AddressBackIs(t: Fields)
    requires t.Long() && t.address % 4 == 0
    ensures AddressBack(t) == t.address <==> And(HighWord(t) / 4, LowWord(t) / 4) == HighWord(t) / 4
  {
    var high, low := HighWord(t), LowWord(t);
    hide Or, And;
    OrQuarter(high, low);
    OrAbsorbs(high / 4, low / 4);
    assert low == low / 4 * 4;
    assert t.address == high * WORD_LIMIT + low;
  }

  lemma LengthBackIs(t: Fields)
    requires RequestInRange(t) && Check(t).Ok?
    ensures ParsedLength(t) == t.length <==> (if t.HasData() then t.length != 0 else t.length != 1024)
  {
    assert t.length <= 1024;
  }

  // The fields that a request does not carry are at rest.
  predicate AtRest(t: Fields)
  {
    && t.completerId == NO_ID && t.status == 0 && t.bcm == 0 && t.byteCount == 0
    && t.destId == NO_ID && t.registerNumber == 0
  }

  // A parsed request equals the printed one exactly when its length, its address and its data came back.
  lemma ParsedIs(t: Fields, t0: Fields, rest: seq<nat>)
    requires RequestInRange(t) && Check(t).Ok? && AtRest(t0)
    ensures Checked(Ok(Parsed(t0, t, rest))) == Ok(t) <==> Encodable(t) && Parsed(t0, t, rest).data == t.data
  {
    LengthBackIs(t);
    if t.Long() {
      AddressBackIs(t);
    }
    hide Or, And, ParsedLength, AddressBack, LowerAddress, Check;
    var u := Parsed(t0, t, rest);
    assert Encodable(t) <==> u.length == t.length && u.address == t.address;
    if Encodable(t) && u.data == t.data {
      SameLowerAddress(u, t);
      assert u == t;
    }
  }

  lemma SameLowerAddress(u: Fields, t: Fields)
    requires u.address == t.address && u.firstBe == t.firstBe
    ensures LowerAddress(u) == LowerAddress(t)
  {
  }

  // Printing then parsing gives a request back if and only if the word format can say it.
  lemma {:induction false} RoundTrip(t: Fields)
    requires RequestInRange(t) && Check(t).Ok?
    ensures Packed(t).Ok? && (Unpacked(FRESH, Packed(t).value, true) == Ok(t) <==> Encodable(t))
  {
    RequestPacks(t);
    RequestParses(FRESH, t, t.data);
    DeserialiseSerialise(RequestHeader(t) + t.data);
    ParsedIs(t, FRESH, t.data);
    hide *;
    assert Parsed(FRESH, t, t.data).data == t.data;
  }

  // ----- The vendor's alignment -----

  function IntelWords(t: Fields): seq<nat>
  {
    RequestHeader(t) + ((if t.address / 4 % 2 == 0 then [0] else []) + t.data)
  }

  lemma {:induction false} IntelPacks(t: Fields)
    requires RequestInRange(t) && Check(t).Ok?
    ensures IntelPacked(t) == Ok(Serialise(IntelWords(t))) && AllWords(IntelWords(t))
  {
    hide RequestInRange, Check, Packed, RequestHeader, Take, Drop, Serialise;
    RequestPacks(t);
    RequestHeaderLength(t);
    PadInserted(RequestHeader(t), t.data);
    assert [] + t.data == t.data;
    PadIsWord(RequestHeader(t), t.data);
  }

  lemma PadIsZero()
    ensures Serialise([0]) == [0, 0, 0, 0]
  {
    assert Serialise([0]) == WordBytes(0) + Serialise([]);
  }

  lemma PadIsWord(h: seq<nat>, rest: seq<nat>)
    requires AllWords(h + rest)
    ensures AllWords(h + ([0] + rest))
  {
    assert forall i :: 0 <= i < |h| ==> (h + rest)[i] == h[i];
    assert forall i :: 0 <= i < |rest| ==> (h + rest)[|h| + i] == rest[i];
  }

  // Padding inserted in the bytes is a zero word inserted in the words.
  lemma PadInserted(h: seq<nat>, rest: seq<nat>)
    ensures var b := Serialise(h + rest);
            Take(b, 4 * |h|) + [0, 0, 0, 0] + Drop(b, 4 * |h|) == Serialise(h + ([0] + rest))
  {
    JoinCuts(h, rest);
    hide *;
    CutsAgree(h + rest, |h|);
    PadIsZero();
    SerialiseJoins([0], rest);
    SerialiseJoins(h, [0] + rest);
    Associates(Serialise(h), Serialise([0]), Serialise(rest));
  }

  lemma Associates<T>(a: seq<T>, b: seq<T>, c: seq<T>)
    ensures a + b + c == a + (b + c)
  {
  }

  lemma JoinCuts<T>(a: seq<T>, b: seq<T>)
    ensures Take(a + b, |a|) == a && Drop(a + b, |a|) == b
  {
  }

  lemma UnpackSerialised(t0: Fields, ws: seq<nat>, check: bool)
    requires AllWords(ws)
    ensures Unpacked(t0, Serialise(ws), check) == if check then Checked(UnpackWords(t0, ws)) else UnpackWords(t0, ws)
  {
    DeserialiseSerialise(ws);
  }

  // The same parser, on words
  function IntelUnpackWords(t: Fields, ws: seq<nat>): Result<Fields>
  {
    match UnpackWords(t, Take(ws, 32))
    case Err(e) => Err(e)
    case Ok(u) =>
      if u.address / 4 % 2 != 0 then Checked(UnpackWords(u, ws))
      else if u.Long() then Checked(UnpackWords(u, Take(ws, 4) + Drop(ws, 5)))
      else Checked(UnpackWords(u, Take(ws, 3) + Drop(ws, 4)))
  }

  lemma AllWordsCut(ws: seq<nat>, m: nat, n: nat)
    requires AllWords(ws)
    ensures AllWords(Take(ws, n)) && AllWords(Take(ws, m) + Drop(ws, n))
  {
  }

  lemma WordCut(t0: Fields, ws: seq<nat>, m: nat)
    requires AllWords(ws)
    ensures Unpacked(t0, Take(Serialise(ws), 4 * m) + Drop(Serialise(ws), 4 * (m + 1)), true)
            == Checked(UnpackWords(t0, Take(ws, m) + Drop(ws, m + 1)))
  {
    hide Checked, UnpackWords, Serialise, Unpacked;
    AllWordsCut(ws, m, m + 1);
    CutsAgree(ws, m);
    CutsAgree(ws, m + 1);
    SerialiseJoins(Take(ws, m), Drop(ws, m + 1));
    UnpackSerialised(t0, Take(ws, m) + Drop(ws, m + 1), true);
  }

  lemma IntelUnpacksWords(t0: Fields, ws: seq<nat>)
    requires AllWords(ws)
    ensures IntelUnpacked(t0, Serialise(ws)) == IntelUnpackWords(t0, ws)
  {
    hide Checked, UnpackWords, Serialise, Unpacked, Take, Drop, AllWords;
    CutsAgree(ws, 32);
    AllWordsCut(ws, 0, 32);
    UnpackSerialised(t0, Take(ws, 32), false);
    var r := UnpackWords(t0, Take(ws, 32));
    if r.Ok? {
      UnpackSerialised(r.value, ws, true);
      WordCut(r.value, ws, 3);
      WordCut(r.value, ws, 4);
    }
  }

  // Parsing an aligned packet looks at the address once, then parses the words after the header with or
  // without the first of them.
  lemma {:induction false} IntelParses(t: Fields, rest: seq<nat>) returns (u: Fields)
    requires RequestInRange(t)
    ensures AtRest(u) && (!t.HasData() ==> u.data == [])
    ensures IntelUnpackWords(FRESH, RequestHeader(t) + rest) ==
            Checked(Ok(Parsed(u, t, if AddressBack(t) / 4 % 2 != 0 then rest else Drop(rest, 1))))
  {
    var h := RequestHeader(t);
    var n := if t.Long() then 4 else 3;
    assert |h| == n by { AddressParses(t, h); }
    u := Parsed(FRESH, t, Take(rest, 32 - n));
    HeaderCuts(h, rest);
    RequestParses(FRESH, t, Take(rest, 32 - n));
    RequestParses(u, t, rest);
    RequestParses(u, t, Drop(rest, 1));
    assert u.address == AddressBack(t) && u.Long() == t.Long();
    hide RequestInRange, Parsed, Checked, UnpackWords, RequestHeader, AddressBack, Take, Drop;
  }

  lemma HeaderCuts(h: seq<nat>, rest: seq<nat>)
    requires |h| <= 32
    ensures Take(h + rest, 32) == h + Take(rest, 32 - |h|)
    ensures Take(h + rest, |h|) + Drop(h + rest, |h| + 1) == h + Drop(rest, 1)
  {
    assert Take(h + rest, |h|) == h;
    assert Drop(h + rest, |h| + 1) == Drop(rest, 1);
  }

  // The words after the header that the parser keeps are the data, if the address comes back.
  lemma KeepsData(t: Fields, u: Fields)
    requires Check(t).Ok? && RequestInRange(t) && Encodable(t) && (!t.HasData() ==> u.data == [])
    ensures var rest := (if t.address / 4 % 2 == 0 then [0] else []) + t.data;
            Parsed(u, t, if AddressBack(t) / 4 % 2 != 0 then rest else Drop(rest, 1)).data == t.data
  {
    if t.Long() {
      AddressBackIs(t);
    }
    assert AddressBack(t) == t.address;
    hide Or, And, AddressBack, LowerAddress, ParsedLength;
    assert Drop([0] + t.data, 1) == t.data && [] + t.data == t.data;
  }

  // The aligned form round-trips exactly the same requests.
  lemma {:induction false} IntelRoundTrip(t: Fields)
    requires RequestInRange(t) && Check(t).Ok?
    ensures IntelPacked(t).Ok? && (IntelUnpacked(FRESH, IntelPacked(t).value) == Ok(t) <==> Encodable(t))
  {
    var rest := (if t.address / 4 % 2 == 0 then [0] else []) + t.data;
    IntelPacks(t);
    assert IntelWords(t) == RequestHeader(t) + rest;
    IntelUnpacksWords(FRESH, IntelWords(t));
    var u := IntelParses(t, rest);
    ParsedIs(t, u, if AddressBack(t) / 4 % 2 != 0 then rest else Drop(rest, 1));
    if Encodable(t) {
      KeepsData(t, u);
    }
    hide *;
  }

  // ----- What the byte enables select -----

  // The byte at offset k of the words of a request is enabled.
  predicate Enabled(t: Fields, k: nat)
    requires k < 4 * t.length
  {
    Bit(if k / 4 == 0 then t.firstBe else if k / 4 == t.length - 1 then t.lastBe else 15, k % 4)
  }

  lemma MaskValues()
    ensures FirstMask(0) == 15 && FirstMask(1) == 14 && FirstMask(2) == 12 && FirstMask(3) == 8
    ensures LastMask(0) == 15 && LastMask(1) == 7 && LastMask(2) == 3 && LastMask(3) == 1
  {
    assert ShiftLeft(15, 1) == 30 && ShiftLeft(15, 2) == 60 && ShiftLeft(15, 3) == 120;
  }

  lemma BitsOfNibble(m: nat)
    requires m < 16
    ensures Bit(m, 0) == (m % 2 == 1) && Bit(m, 1) == (m / 2 % 2 == 1)
    ensures Bit(m, 2) == (m / 4 % 2 == 1) && Bit(m, 3) == (m / 8 % 2 == 1)
  {
    assert ShiftRight(m, 1) == m / 2;
    assert ShiftRight(m / 2, 1) == m / 4;
    assert ShiftRight(m / 4, 1) == m / 8;
    assert ShiftRight(m, 2) == m / 4;
    assert ShiftRight(m, 3) == ShiftRight(m / 2, 2) == m / 8;
  }

  lemma MaskBits(p: nat, k: nat)
    requires p < 4 && k < 4
    ensures Bit(FirstMask(p), k) <==> p <= k
    ensures Bit(LastMask(p), k) <==> k < 4 - p
    ensures FirstMask(p) < 16 && LastMask(p) < 16
  {
    MaskValues();
    hide Bit, FirstMask, LastMask;
    BitsOfNibble(FirstMask(p));
    BitsOfNibble(LastMask(p));
  }

  // The request starts p bytes into its first word and ends q bytes before the end of its last.
  lemma Pads(t: Fields, addr: nat, n: nat) returns (a: nat, p: nat, q: nat)
    requires n > 0
    ensures var u := WithBe(t, addr, n);
            && p < 4 && q < 4 && addr == 4 * a + p && u.address == 4 * a && n + p + q == 4 * u.length
            && u.firstBe == (if u.length == 1 then And(FirstMask(p), LastMask(q)) else FirstMask(p))
            && u.lastBe == (if u.length == 1 then 0 else LastMask(q))
            && u.HasData() == t.HasData() && u.Memory() == t.Memory() && u.Io() == t.Io()
            && u.data == t.data && u.fmt == t.fmt && u.kind == t.kind
  {
    hide And, FirstMask, LastMask, LowerAddress;
    a, p, q := addr / 4, FirstPad(addr), LastPad(addr, n);
    assert (n + p + q) % 4 == 0;
  }

  // The enabled bytes are exactly those of the range asked for.
  lemma ByteEnables(t: Fields, addr: nat, n: nat, k: nat)
    requires n > 0 && k < 4 * WithBe(t, addr, n).length
    ensures var u := WithBe(t, addr, n);
            Enabled(u, k) <==> addr <= u.address + k < addr + n
  {
    var a, p, q := Pads(t, addr, n);
    var u, w, b := WithBe(t, addr, n), k / 4, k % 4;
    MasksTogether(p, q, b);
    hide WithBe, Bit, And, FirstMask, LastMask;
    assert Enabled(u, k) <==>
           if u.length == 1 then p <= b < 4 - q else if w == 0 then p <= b
           else if w == u.length - 1 then b < 4 - q else true;
    hide *;
    InsideRange(p, q, u.length, w, b);
  }

  lemma MasksTogether(p: nat, q: nat, k: nat)
    requires p < 4 && q < 4 && k < 4
    ensures Bit(FirstMask(p), k) <==> p <= k
    ensures Bit(LastMask(q), k) <==> k < 4 - q
    ensures Bit(And(FirstMask(p), LastMask(q)), k) <==> p <= k < 4 - q
    ensures Bit(15, k)
  {
    hide Bit, And, FirstMask, LastMask;
    MaskBits(p, k);
    MaskBits(q, k);
    BitOfAnd(FirstMask(p), LastMask(q), k);
    BitsOfNibble(15);
  }

  lemma InsideRange(p: nat, q: nat, length: nat, w: nat, b: nat)
    requires p < 4 && q < 4 && b < 4 && w < length
    ensures (if length == 1 then p <= b < 4 - q else if w == 0 then p <= b
             else if w == length - 1 then b < 4 - q else true)
            <==> p <= 4 * w + b < 4 * length - q
  {
  }

  // The byte count and the first byte can be computed back from the byte enables.
  lemma {:induction false} ByteCountBack(t: Fields, addr: nat, n: nat)
    requires n > 0
    ensures var u := WithBe(t, addr, n);
            ByteCount(u) == n && u.address + FirstBeOffset(u.firstBe) == addr
  {
    var a, p, q := Pads(t, addr, n);
    MaskValues();
    hide WithBe, And, FirstMask, LastMask;
    if WithBe(t, addr, n).length == 1 {
      SingleWordOffsets(p, q);
    }
  }

  lemma SingleWordOffsets(p: nat, q: nat)
    requires p + q < 4
    ensures FirstBeOffset(And(FirstMask(p), LastMask(q))) == p && LastBeOffset(And(FirstMask(p), LastMask(q))) == q
  {
    hide And, Bit, FirstMask, LastMask, FirstBeOffset, LastBeOffset;
    var m := And(FirstMask(p), LastMask(q));
    forall k | 0 <= k < 4
      ensures Bit(m, k) <==> p <= k < 4 - q
    {
      MaskBits(p, k);
      MaskBits(q, k);
      BitOfAnd(FirstMask(p), LastMask(q), k);
    }
    MaskBits(q, 0);
    AndBelow(FirstMask(p), LastMask(q));
    BitsOfNibble(m);
    NibbleOffsets(m, p, q);
  }

  lemma NibbleOffsets(m: nat, p: nat, q: nat)
    requires m < 16 && p + q < 4
    requires m % 2 == 1 <==> p <= 0 < 4 - q
    requires m / 2 % 2 == 1 <==> p <= 1 < 4 - q
    requires m / 4 % 2 == 1 <==> p <= 2 < 4 - q
    requires m / 8 % 2 == 1 <==> p <= 3 < 4 - q
    ensures FirstBeOffset(m) == p && LastBeOffset(m) == q
  {
    var b0, b1, b2, b3 := m % 2, m / 2 % 2, m / 4 % 2, m / 8 % 2;
    assert m == b0 + 2 * b1 + 4 * b2 + 8 * b3;
    assert m % 16 == m && m % 8 == b0 + 2 * b1 + 4 * b2 && m % 4 == b0 + 2 * b1;
  }

  // A memory request passes the check on its range if and only if its bytes lie in one 4 KiB page.
  lemma PageCheck(t: Fields, addr: nat, n: nat)
    requires n > 0 && t.Memory()
    requires t.HasData() ==> |t.data| == WithBe(t, addr, n).length
    ensures Check(WithBe(t, addr, n)) == if addr % 4096 + n > 4096 then Err(Crosses4K) else Ok(())
  {
    var a, p, q := Pads(t, addr, n);
    PageArithmetic(a, p, q, n, WithBe(t, addr, n).length);
    hide WithBe;
  }

  lemma PageArithmetic(a: nat, p: nat, q: nat, n: nat, length: nat)
    requires p < 4 && q < 4 && n + p + q == 4 * length
    ensures length * 4 > 0x1000 - 4 * a % 0x1000 <==> (4 * a + p) % 4096 + n > 4096
  {
    var b, c := a / 1024, a % 1024;
    assert a == 1024 * b + c;
    LastDigit(b, 4 * c, 4096);
    LastDigit(b, 4 * c + p, 4096);
  }

  // The lower address leaves out the offset of the first byte, so it is what it should be if and only if
  // that offset is zero.
  lemma LowerAddressIs(t: Fields)
    requires t.address % 4 == 0
    ensures LowerAddress(t) == t.address % 128
    ensures LowerAddress(t) == t.address % 128 + FirstBeOffset(t.firstBe) <==> FirstBeOffset(t.firstBe) == 0
  {
    var off := FirstBeOffset(t.firstBe);
    assert off < 4;
    hide And, FirstBeOffset;
    var words := t.address / 4;
    var g, r := words / 32, words % 32;
    assert t.address == 4 * words && words == 32 * g + r;
    LastDigit(g, 4 * r, 128);
    MaskedByLowerAddress(g, r, off);
  }

  // The lower address of a range is that of its first word.
  lemma {:induction false} RangeLowerAddress(t: Fields, addr: nat, n: nat)
    ensures WithBe(t, addr, n).address == addr / 4 * 4
    ensures WithBe(t, addr, n).lowerAddress == addr / 4 * 4 % 128
  {
    hide LowerAddress, FirstMask, LastMask, FirstPad, LastPad, And;
    LastDigit(addr / 4, 0, 4);
    var r := WithBe(t, addr, n);
    SameLowerAddress(r, r.(lowerAddress := t.lowerAddress));
    LowerAddressIs(WithBe(t, addr, n));
  }

  lemma MaskedByLowerAddress(g: nat, r: nat, off: nat)
    requires r < 32 && off < 4
    ensures And(4 * (32 * g + r), 0x7c + off) == 4 * r
  {
    var c, m := 32 * g + r, 62 + off / 2;
    assert 4 * c / 2 == 2 * c && 4 * c % 2 == 0 && 2 * c / 2 == c && 2 * c % 2 == 0;
    assert (0x7c + off) / 2 == m && m / 2 == 31;
    BitwiseHalves(4 * c, 0x7c + off);
    BitwiseHalves(2 * c, m);
    hide And;
    AndOnes(g, r);
  }

  // ----- Data -----

  function WithBytes(t: Fields, bs: seq<byte>): Fields
    requires |bs| % 4 == 0
  {
    t.(data := Deserialise(bs), length := |bs| / 4)
  }

  function Zeros(n: nat): (z: seq<byte>)
    ensures |z| == n
  {
    seq(n, _ => 0)
  }

  function Padded(addr: nat, data: seq<byte>): (r: seq<byte>)
    ensures |r| % 4 == 0
  {
    Zeros(FirstPad(addr)) + data + Zeros(LastPad(addr, |data|))
  }

  function WithBeData(t: Fields, addr: nat, data: seq<byte>): Fields
  {
    WithBytes(WithBe(t, addr, |data|), Padded(addr, data))
  }

  lemma {:induction false} SerialiseDeserialise(bs: seq<byte>)
    requires |bs| % 4 == 0
    ensures Serialise(Deserialise(bs)) == bs
  {
    if bs != [] {
      SerialiseDeserialise(bs[4..]);
      BytesOf(bs[0], bs[1], bs[2], bs[3]);
      assert bs == bs[..4] + bs[4..];
    }
  }

  lemma LastPadIs(addr: nat, n: nat, a: nat, p: nat, q: nat, m: nat)
    requires n > 0 && p < 4 && q < 4 && addr == 4 * a + p && n + p + q == 4 * m
    ensures LastPad(addr, n) == q && FirstPad(addr) == p
  {
    assert addr + n - 1 == 4 * (a + m - 1) + (3 - q);
  }

  lemma PaddedAt(addr: nat, data: seq<byte>, a: nat, p: nat, q: nat, m: nat, k: nat)
    requires data != [] && p < 4 && q < 4 && addr == 4 * a + p && |data| + p + q == 4 * m
    ensures |Padded(addr, data)| == p + |data| + q
    ensures p <= k < p + |data| ==> Padded(addr, data)[k] == data[k - p]
  {
    LastPadIs(addr, |data|, a, p, q, m);
    hide FirstPad, LastPad;
  }

  // A write carries its bytes to their addresses: an enabled byte is a byte of the range, and holds the
  // byte of the data that belongs there.
  lemma {:induction false} WriteDelivers(t: Fields, addr: nat, data: seq<byte>, k: nat)
    requires data != [] && k < 4 * WithBeData(t, addr, data).length
    ensures var u := WithBeData(t, addr, data);
            && |Serialise(u.data)| == 4 * u.length
            && (Enabled(u, k) <==> addr <= u.address + k < addr + |data|)
            && (Enabled(u, k) ==> Serialise(u.data)[k] == data[u.address + k - addr])
  {
    var a, p, q := Pads(t, addr, |data|);
    SerialiseDeserialise(Padded(addr, data));
    PaddedAt(addr, data, a, p, q, WithBe(t, addr, |data|).length, k);
    ByteEnables(t, addr, |data|, k);
    hide Serialise, Deserialise, WithBe, Bit, Padded;
  }

  // A memory write of a range of bytes is printable exactly when the range lies in one page.
  lemma {:induction false} WritePrints(t: Fields, u: Fields, addr: nat, data: seq<byte>)
    requires data != [] && u == WithBeData(t, addr, data)
    requires RequestInRange(u) && t.Memory()
    ensures Packed(u).Ok? <==> addr % 4096 + |data| <= 4096
  {
    var a, p, q := Pads(t, addr, |data|);
    hide RequestInRange, Packed, Deserialise;
    PageCheck(t.(data := u.data), addr, |data|);
    SameRange(t, u.data, addr, |data|);
    assert u == WithBe(t, addr, |data|).(data := u.data);
    if Check(u).Ok? {
      RequestPacks(u);
    } else {
      CheckedFirst(u);
    }
  }

  lemma CheckedFirst(t: Fields)
    requires Check(t).Err?
    ensures Packed(t).Err?
  {
  }

  lemma SameRange(t: Fields, data: seq<nat>, addr: nat, n: nat)
    ensures WithBe(t.(data := data), addr, n) == WithBe(t, addr, n).(data := data)
  {
  }

  // ----- Requests that do not come back -----

  function ReadRequest(fmt: nat, address: nat, length: nat): Fields
  {
    Fields(fmt, 0, 0, 0, 0, 0, 0, 0, length, NO_ID, 0, 0, 0, NO_ID, NO_ID, 0, 15, 15, address % 128, address, 0, [])
  }

  lemma ReadInRange(fmt: nat, address: nat, length: nat)
    requires fmt <= FMT_4DW && address % 4 == 0
    requires address < if fmt == FMT_4DW then WORD_LIMIT * WORD_LIMIT else WORD_LIMIT
    requires length * 4 <= 4096 - address % 4096
    ensures RequestInRange(ReadRequest(fmt, address, length)) && Check(ReadRequest(fmt, address, length)).Ok?
  {
    LowerAddressIs(ReadRequest(fmt, address, length));
    hide And, LowerAddress;
  }

  // A read of a whole page comes back as a read of nothing.
  lemma {:induction false} LargestReadLost()
    ensures var t := ReadRequest(FMT_3DW, 0x1000, 1024);
            RequestInRange(t) && Packed(t).Ok? && Unpacked(FRESH, Packed(t).value, true) != Ok(t)
  {
    var t := ReadRequest(FMT_3DW, 0x1000, 1024);
    ReadInRange(FMT_3DW, 0x1000, 1024);
    hide RequestInRange, Packed, Unpacked, Check;
    RoundTrip(t);
  }

  // A read at 16 GiB comes back four bytes further on.
  lemma {:induction false} LongAddressLost()
    ensures var t := ReadRequest(FMT_4DW, 4 * WORD_LIMIT, 1);
            RequestInRange(t) && Packed(t).Ok? && Unpacked(FRESH, Packed(t).value, true) != Ok(t)
            && AddressBack(t) == 4 * WORD_LIMIT + 4
  {
    var t := ReadRequest(FMT_4DW, 4 * WORD_LIMIT, 1);
    OrZero(4);
    AndCommutes(1, 0);
    AndZero(1);
    hide RequestInRange, Packed, Unpacked, Check, Or, And;
    assert HighWord(t) == 4 && LowWord(t) == 0;
    ReadInRange(FMT_4DW, 4 * WORD_LIMIT, 1);
    RoundTrip(t);
  }

  // ----- Configuration requests and completions -----

  // The length field has room for it.
  predicate LengthFits(t: Fields)
  {
    if t.HasData() then 1 <= t.length <= 1024 else t.length < 1024
  }

  lemma LengthFitsIs(t: Fields)
    requires t.HasData() ==> t.length <= 1024
    ensures ParsedLength(t) == t.length <==> LengthFits(t)
  {
  }

  // Whatever the object held before, a configuration request that parses has register number zero: the parser
  // shifts it out.
  lemma RegisterNumberLost(t0: Fields, ws: seq<nat>)
    requires AllWords(ws)
    ensures var r := UnpackWords(t0, ws);
            r.Ok? && r.value.Config() ==> r.value.registerNumber == 0
  {
    if |ws| >= 3 {
      Pow2Values();
      hide Pow2, ShiftRight, Or, And, Field, IdFromInt;
      ShiftedOut(ws[2] / 4, 30, 0x3ff);
    }
  }

  lemma NoLowerAddress(t: Fields)
    requires t.address == 0
    ensures LowerAddress(t) == 0
  {
    AndZero(0x7c + FirstBeOffset(t.firstBe));
  }

  // Values the fields of a configuration request have room for, and those it does not carry at rest
  predicate ConfigInRange(t: Fields)
  {
    && t.Config() && HeaderInRange(t)
    && t.tag < 256 && t.firstBe < 16 && t.lastBe < 16 && IdInRange(t.requesterId)
    && t.registerNumber < 1024 && IdInRange(t.destId)
    && t.completerId == NO_ID && t.status == 0 && t.bcm == 0 && t.byteCount == 0 && t.address == 0
    && AllWords(t.data) && (!t.HasData() ==> t.data == []) && t.length <= 1024
  }

  function TargetWord(t: Fields): nat
  {
    Or(t.registerNumber % 1024 * 4, IdToInt(t.destId) * 65536)
  }

  lemma TargetWordIs(t: Fields)
    ensures TargetWord(t) < WORD_LIMIT && TargetWord(t) / 65536 == IdToInt(t.destId)
    ensures TargetWord(t) == t.registerNumber % 1024 * 4 + IdToInt(t.destId) * 0x1_0000
  {
    hide Or, Pow2, IdToInt;
    Pow2Values();
    IdToIntIs(t.destId);
    OrDisjoint(t.registerNumber % 1024 * 4, IdToInt(t.destId), 16);
    LastDigit(IdToInt(t.destId), t.registerNumber % 1024 * 4, 65536);
  }

  // What printing and parsing makes of a configuration request
  function ConfigBack(t: Fields): Fields
  {
    t.(length := ParsedLength(t), registerNumber := 0, lowerAddress := 0)
  }

  lemma ConfigBody(h: Fields, t: Fields, w0: nat, rest: seq<nat>)
    requires ConfigInRange(t) && h.fmt == t.fmt && h.kind == t.kind
    ensures WithBody(h, [w0, RequestWord(t), TargetWord(t)] + rest) ==
            Ok(h.(firstBe := t.firstBe, lastBe := t.lastBe, tag := t.tag, requesterId := t.requesterId,
                  registerNumber := 0, destId := t.destId))
  {
    TargetWordIs(t);
    RequestWordParses(h, t);
    IdRoundTrip(t.destId);
    Pow2Values();
    hide Pow2, RequestWord, TargetWord, WithRequest, IdToInt, IdFromInt, ShiftRight, IdInRange, AllWords;
    ShiftedOut(TargetWord(t) / 4, 30, 0x3ff);
  }

  // With an address of zero the data are all that the words after the header add.
  lemma UnpackedIs(t0: Fields, ws: seq<nat>, u: Fields, rest: seq<nat>)
    requires |ws| >= 3 && !u.Long() && WithBody(WithHeader(t0, ws[0]), ws) == Ok(u) && u.address == 0
    requires ws[3..] == rest && (!u.HasData() ==> rest == []) && u.data == []
    ensures UnpackWords(t0, ws) == Ok(u.(data := rest, lowerAddress := 0))
  {
    hide WithHeader, WithBody, LowerAddress;
    NoLowerAddress(WithData(u, ws));
  }

  lemma {:induction false} ConfigParses(t: Fields)
    requires ConfigInRange(t)
    ensures var ws := [Word0(t), RequestWord(t), TargetWord(t)] + t.data;
            AllWords(ws) && UnpackWords(FRESH, ws) == Ok(ConfigBack(t))
  {
    hide Word0, Word0Sum, RequestWord, TargetWord, WithHeader, WithBody, IdToInt, ParsedLength, LowerAddress, Field,
         IdInRange, UnpackWords;
    var ws := [Word0(t), RequestWord(t), TargetWord(t)] + t.data;
    Word0Is(t);
    ConfigWordsFit(t);
    HeaderParses(FRESH, t);
    var h := WithHeader(FRESH, ws[0]);
    ConfigBody(h, t, ws[0], t.data);
    assert ws[3..] == t.data;
    var u := WithBody(h, ws).value;
    UnpackedIs(FRESH, ws, u, t.data);
    assert u.(data := t.data, lowerAddress := 0) == ConfigBack(t);
  }

  lemma ConfigWordsFit(t: Fields)
    ensures RequestWord(t) < WORD_LIMIT && TargetWord(t) < WORD_LIMIT
  {
    RequestWordIs(t);
    TargetWordIs(t);
  }

  lemma {:induction false} ConfigPacks(t: Fields)
    requires ConfigInRange(t) && Check(t).Ok?
    ensures Packed(t).Ok? && Unpacked(FRESH, Packed(t).value, true) == Checked(Ok(ConfigBack(t)))
  {
    hide Word0, RequestWord, TargetWord, ConfigBack, UnpackWords, Unpacked, Serialise, Check, AllWords, HeaderInRange,
         Checked, IdInRange;
    ConfigParses(t);
    var ws := [Word0(t), RequestWord(t), TargetWord(t)] + t.data;
    UnpackSerialised(FRESH, ws, true);
    HeaderAndData(t, [Word0(t), RequestWord(t), TargetWord(t)]);
    assert HeaderWords(t) == Ok([Word0(t), RequestWord(t), TargetWord(t)]) by { IsConfigHeader(t); }
  }

  lemma IsConfigHeader(t: Fields)
    requires t.Config()
    ensures HeaderWords(t) == Ok([Word0(t), RequestWord(t), TargetWord(t)])
  {
    hide Word0, RequestWord, Or;
  }

  lemma HeaderAndData(t: Fields, h: seq<nat>)
    requires !t.HasData() ==> t.data == []
    ensures h + (if t.HasData() then t.data else []) == h + t.data
  {
  }

  // A printable configuration request comes back if and only if its register number and its lower address are
  // zero and the length field has room for its length.
  lemma {:induction false} ConfigRoundTrip(t: Fields)
    requires ConfigInRange(t) && Check(t).Ok?
    ensures Packed(t).Ok?
    ensures Unpacked(FRESH, Packed(t).value, true) == Ok(t) <==>
            t.registerNumber == 0 && t.lowerAddress == 0 && LengthFits(t)
  {
    ConfigPacks(t);
    LengthFitsIs(t);
    hide Packed, Unpacked, Check, ParsedLength, LengthFits, HeaderInRange, IdInRange;
  }

  // A completion loses its lower address: the parser overwrites it with one computed from an address and
  // byte enables that a completion does not carry.
  lemma {:induction false} CompletionLowerAddressLost(ws: seq<nat>)
    ensures var r := UnpackWords(FRESH, ws);
            r.Ok? && r.value.Completion() ==> r.value.lowerAddress == 0
  {
    if UnpackWords(FRESH, ws).Ok? && UnpackWords(FRESH, ws).value.Completion() {
      var h := WithHeader(FRESH, ws[0]);
      assert h.address == 0;
      hide WithHeader, Field, Or, And, IdFromInt, LowerAddress;
      var u := WithBody(h, ws).value;
      BodyKeepsFormat(h, ws);
      assert u.address == 0;
      hide WithBody;
      NoLowerAddress(WithData(u, ws));
    }
  }

  // Values the fields of a completion have room for, and those it does not carry at rest
  predicate CompletionInRange(t: Fields)
  {
    && t.Completion() && HeaderInRange(t)
    && t.byteCount <= 4096 && t.bcm < 2 && t.status < 8 && IdInRange(t.completerId)
    && t.lowerAddress < 128 && t.tag < 256 && IdInRange(t.requesterId)
    && t.firstBe == 0 && t.lastBe == 0 && t.address == 0 && t.registerNumber == 0 && t.destId == NO_ID
    && AllWords(t.data) && (!t.HasData() ==> t.data == []) && t.length <= 1024
  }

  function StatusWord(t: Fields): nat
  {
    Or(Or(Or(t.byteCount % 4096, t.bcm % 2 * 4096), t.status % 8 * 8192), IdToInt(t.completerId) * 65536)
  }

  function TagWord(t: Fields): nat
  {
    Or(Or(t.lowerAddress % 128, t.tag % 256 * 256), IdToInt(t.requesterId) * 65536)
  }

  lemma StatusWordIs(t: Fields)
    ensures StatusWord(t) < WORD_LIMIT && StatusWord(t) / 65536 == IdToInt(t.completerId)
    ensures Field(StatusWord(t), 1, 4096) == t.byteCount % 4096 && Field(StatusWord(t), 4096, 2) == t.bcm % 2
    ensures Field(StatusWord(t), 8192, 8) == t.status % 8
    ensures StatusWord(t) == t.byteCount % 4096 + t.bcm % 2 * 0x1000 + t.status % 8 * 0x2000 +
                             IdToInt(t.completerId) * 0x1_0000
  {
    hide Or, Pow2, IdToInt;
    Pow2Values();
    IdToIntIs(t.completerId);
    var a, b, c, d := t.byteCount % 4096, t.bcm % 2, t.status % 8, IdToInt(t.completerId);
    OrDisjoint(a, b, 12);
    OrDisjoint(a + b * 4096, c, 13);
    OrDisjoint(a + b * 4096 + c * 8192, d, 16);
    var w := a + b * 4096 + c * 8192 + d * 65536;
    FieldOf(w, 0, a, b + c * 2 + d * 16, 1, 4096);
    FieldOf(w, a, b, c + d * 8, 4096, 2);
    FieldOf(w, a + b * 4096, c, d, 8192, 8);
    LastDigit(d, a + b * 4096 + c * 8192, 65536);
  }

  lemma TagWordIs(t: Fields)
    ensures TagWord(t) < WORD_LIMIT && TagWord(t) / 65536 == IdToInt(t.requesterId)
    ensures Field(TagWord(t), 256, 256) == t.tag % 256
    ensures TagWord(t) == t.lowerAddress % 128 + t.tag % 256 * 0x100 + IdToInt(t.requesterId) * 0x1_0000
  {
    hide Or, Pow2, IdToInt;
    Pow2Values();
    IdToIntIs(t.requesterId);
    var a, c, d := t.lowerAddress % 128, t.tag % 256, IdToInt(t.requesterId);
    OrDisjoint(a, c, 8);
    OrDisjoint(a + c * 256, d, 16);
    FieldOf(a + c * 256 + d * 65536, a, c, d, 256, 256);
    LastDigit(d, a + c * 256, 65536);
  }

  // A byte count of twelve bits, of which zero stands for 4096
  function CountField(n: nat): nat
  {
    n % 4096
  }

  function CountBack(n: nat): nat
  {
    if CountField(n) == 0 then 4096 else CountField(n)
  }

  // What printing and parsing makes of a completion
  function CompletionBack(t: Fields): Fields
  {
    t.(length := ParsedLength(t), lowerAddress := 0, byteCount := CountBack(t.byteCount))
  }

  lemma HeadParses(u: Fields, t: Fields)
    requires CompletionInRange(t)
    ensures WithCompletionHead(u, StatusWord(t)) ==
            u.(byteCount := CountField(t.byteCount), bcm := t.bcm, status := t.status, completerId := t.completerId)
  {
    StatusWordIs(t);
    IdRoundTrip(t.completerId);
    hide StatusWord, IdToInt, IdFromInt, Field;
  }

  lemma TailParses(u: Fields, t: Fields)
    requires CompletionInRange(t)
    ensures WithCompletionTail(u, TagWord(t)) ==
            u.(byteCount := if u.byteCount == 0 then 4096 else u.byteCount, tag := t.tag, requesterId := t.requesterId,
               lowerAddress := Field(TagWord(t), 1, 128))
  {
    TagWordIs(t);
    IdRoundTrip(t.requesterId);
    hide TagWord, IdToInt, IdFromInt, Field;
  }

  lemma CompletionBody(h: Fields, t: Fields, w0: nat, rest: seq<nat>)
    requires CompletionInRange(t) && h.fmt == t.fmt && h.kind == t.kind
    ensures WithBody(h, [w0, StatusWord(t), TagWord(t)] + rest) ==
            Ok(h.(byteCount := CountBack(t.byteCount), bcm := t.bcm, status := t.status, completerId := t.completerId,
                  tag := t.tag, requesterId := t.requesterId, lowerAddress := Field(TagWord(t), 1, 128)))
  {
    HeadParses(h, t);
    TailParses(WithCompletionHead(h, StatusWord(t)), t);
    hide StatusWord, TagWord, WithCompletionHead, WithCompletionTail, Field, IdInRange, WithRequest, WithTarget,
         AllWords, HeaderInRange, CountField;
  }

  lemma CompletionWordsFit(t: Fields)
    ensures StatusWord(t) < WORD_LIMIT && TagWord(t) < WORD_LIMIT
  {
    StatusWordIs(t);
    TagWordIs(t);
  }

  lemma {:induction false} CompletionParses(t: Fields)
    requires CompletionInRange(t)
    ensures var ws := [Word0(t), StatusWord(t), TagWord(t)] + t.data;
            AllWords(ws) && UnpackWords(FRESH, ws) == Ok(CompletionBack(t))
  {
    hide Word0, Word0Sum, StatusWord, TagWord, WithHeader, WithBody, IdToInt, ParsedLength, LowerAddress, Field,
         IdInRange, CountBack, UnpackWords;
    var ws := [Word0(t), StatusWord(t), TagWord(t)] + t.data;
    Word0Is(t);
    CompletionWordsFit(t);
    HeaderParses(FRESH, t);
    var h := WithHeader(FRESH, ws[0]);
    CompletionBody(h, t, ws[0], t.data);
    assert ws[3..] == t.data;
    var u := WithBody(h, ws).value;
    UnpackedIs(FRESH, ws, u, t.data);
    assert u.(data := t.data, lowerAddress := 0) == CompletionBack(t);
  }

  lemma IsCompletionHeader(t: Fields)
    requires t.Completion()
    ensures HeaderWords(t) == Ok([Word0(t), StatusWord(t), TagWord(t)])
  {
    hide Word0, RequestWord, Or;
  }

  lemma {:induction false} CompletionPacks(t: Fields)
    requires CompletionInRange(t) && Check(t).Ok?
    ensures Packed(t).Ok? && Unpacked(FRESH, Packed(t).value, true) == Checked(Ok(CompletionBack(t)))
  {
    hide Word0, StatusWord, TagWord, CompletionBack, UnpackWords, Unpacked, Serialise, Check, AllWords, HeaderInRange,
         Checked, IdInRange;
    CompletionParses(t);
    var ws := [Word0(t), StatusWord(t), TagWord(t)] + t.data;
    UnpackSerialised(FRESH, ws, true);
    HeaderAndData(t, [Word0(t), StatusWord(t), TagWord(t)]);
    assert HeaderWords(t) == Ok([Word0(t), StatusWord(t), TagWord(t)]) by { IsCompletionHeader(t); }
  }

  // A printable completion comes back if and only if its lower address is zero, its byte count is not, and the
  // length field has room for its length.
  lemma {:induction false} CompletionRoundTrip(t: Fields)
    requires CompletionInRange(t) && Check(t).Ok?
    ensures Packed(t).Ok?
    ensures Unpacked(FRESH, Packed(t).value, true) == Ok(t) <==>
            t.lowerAddress == 0 && t.byteCount != 0 && LengthFits(t)
  {
    CompletionPacks(t);
    CompletionBackIs(t);
    hide Packed, Unpacked, Check, CompletionBack, CompletionInRange, LengthFits;
  }

  lemma CompletionBackIs(t: Fields)
    requires CompletionInRange(t)
    ensures CompletionBack(t) == t <==> t.lowerAddress == 0 && t.byteCount != 0 && LengthFits(t)
  {
    LengthFitsIs(t);
    hide ParsedLength, LengthFits, HeaderInRange, IdInRange;
  }

  const DEVICE := PcieId(1, 2, 3)

  // Register 4 of a device is read at register 0.
  lemma ConfigReadLost()
    ensures var t := Fields(FMT_3DW, 4, 0, 0, 0, 0, 0, 0, 1, NO_ID, 0, 0, 0, NO_ID, DEVICE, 7, 15, 0, 0, 0, 4, []);
            && ConfigInRange(t) && Packed(t).Ok?
            && Unpacked(FRESH, Packed(t).value, true) == Ok(t.(registerNumber := 0))
  {
    var t := Fields(FMT_3DW, 4, 0, 0, 0, 0, 0, 0, 1, NO_ID, 0, 0, 0, NO_ID, DEVICE, 7, 15, 0, 0, 0, 4, []);
    assert Check(t).Ok? && Check(ConfigBack(t)).Ok? && ConfigInRange(t);
    hide Packed, Unpacked, Check;
    ConfigPacks(t);
  }

  // A completion of byte 4 of its block comes back as one of byte 0.
  lemma CompletionLost()
    ensures var t := Fields(FMT_3DW, 10, 0, 0, 0, 0, 0, 0, 0, DEVICE, 0, 0, 4, NO_ID, NO_ID, 7, 0, 0, 4, 0, 0, []);
            && CompletionInRange(t) && Packed(t).Ok?
            && Unpacked(FRESH, Packed(t).value, true) == Ok(t.(lowerAddress := 0))
  {
    hide Packed, Unpacked, CompletionBack;
    var t := Fields(FMT_3DW, 10, 0, 0, 0, 0, 0, 0, 0, DEVICE, 0, 0, 4, NO_ID, NO_ID, 7, 0, 0, 4, 0, 0, []);
    assert CompletionInRange(t) && !t.HasData() && t.length == 0;
    hide CompletionInRange;
    LowerAddressCleared(t);
  }

  // A completion without data loses nothing else.
  lemma LowerAddressCleared(t: Fields)
    requires CompletionInRange(t) && !t.HasData() && t.length < 1024 && t.byteCount != 0
    ensures Packed(t).Ok? && Unpacked(FRESH, Packed(t).value, true) == Ok(t.(lowerAddress := 0))
  {
    var u := t.(lowerAddress := 0);
    assert CompletionInRange(u) && Check(t).Ok? && Check(u).Ok?;
    hide Packed, Unpacked, Check, CompletionInRange, LengthFits;
    CompletionPacks(t);
    assert LengthFits(u) by { LengthFitsOf(u); }
    CompletionBackIs(u);
    assert CompletionBack(t) == CompletionBack(u);
  }

  lemma LengthFitsOf(t: Fields)
    requires !t.HasData() && t.length < 1024
    ensures LengthFits(t)
  {
  }

  // ----- The layout of a header -----

  // Format and type of the packets that are known
  lemma KnownPackets(t: Fields)
    ensures HeaderWords(t).Ok? <==>
            || (t.kind == 0 && t.fmt < 4) || (t.kind == 1 && t.fmt < 2)
            || (t.kind in {2, 4, 5, 10, 11} && t.fmt in {0, 2})
  {
    hide Word0, RequestWord, AddressWords, IdToInt, Or;
  }

  lemma FirstWordLayout(t: Fields)
    ensures Word0(t) == t.length % 1024 + t.at % 4 * 0x400 + t.attr % 4 * 0x1000 + t.ep % 2 * 0x4000 +
                        t.td % 2 * 0x8000 + t.th % 2 * 0x1_0000 + t.attr / 4 % 2 * 0x4_0000 + t.tc % 8 * 0x10_0000 +
                        t.kind % 32 * 0x100_0000 + t.fmt % 8 * 0x2000_0000
  {
    Word0Is(t);
    hide Word0;
  }

  // The header of a memory or I/O request, bit by bit: with a short address three words, with a long one four
  lemma RequestLayout(t: Fields)
    requires t.kind < 4 && HeaderWords(t).Ok?
    ensures HeaderWords(t).value ==
            [Word0(t),
             t.firstBe % 16 + t.lastBe % 16 * 0x10 + t.tag % 256 * 0x100 + IdToInt(t.requesterId) * 0x1_0000] +
            AddressWords(t)
  {
    RequestWordIs(t);
    hide Word0, RequestWord, IdToInt, Or, AddressWords;
  }

  // A short address is one word; of a long one the second word has the bits of the first as well.
  lemma AddressLayout(t: Fields)
    ensures AddressWords(t) ==
            if t.fmt == 1 || t.fmt == 3 then
              [t.address / 0x1_0000_0000 % 0x1_0000_0000,
               Or(t.address / 0x1_0000_0000 % 0x1_0000_0000, t.address % 0x1_0000_0000 / 4 * 4)]
            else [t.address % 0x1_0000_0000 / 4 * 4]
  {
    OrZero(t.address % WORD_LIMIT / 4 * 4);
    hide Or;
  }

  // Of a configuration request
  lemma ConfigLayout(t: Fields)
    requires t.kind in {4, 5} && HeaderWords(t).Ok?
    ensures HeaderWords(t).value ==
            [Word0(t),
             t.firstBe % 16 + t.lastBe % 16 * 0x10 + t.tag % 256 * 0x100 + IdToInt(t.requesterId) * 0x1_0000,
             t.registerNumber % 1024 * 4 + IdToInt(t.destId) * 0x1_0000]
  {
    RequestWordIs(t);
    TargetWordIs(t);
    hide Word0, RequestWord, IdToInt, Or;
  }

  // And of a completion
  lemma CompletionLayout(t: Fields)
    requires t.kind in {10, 11} && HeaderWords(t).Ok?
    ensures HeaderWords(t).value ==
            [Word0(t),
             t.byteCount % 4096 + t.bcm % 2 * 0x1000 + t.status % 8 * 0x2000 + IdToInt(t.completerId) * 0x1_0000,
             t.lowerAddress % 128 + t.tag % 256 * 0x100 + IdToInt(t.requesterId) * 0x1_0000]
  {
    StatusWordIs(t);
    TagWordIs(t);
    hide Word0, RequestWord, IdToInt, Or;
  }

  // The aligned form has four zero bytes behind the header if bit 2 of the address is not set.  So the data begin at
  // the same place in eight bytes as in memory if and only if the header has three words: behind a long address
  // they are four bytes off.
  lemma IntelAlignment(t: Fields)
    requires Packed(t).Ok? && t.address % 4 == 0
    ensures var b, n := Packed(t).value, if t.fmt == 1 || t.fmt == 3 then 16 else 12;
            var pad := if t.address % 8 == 4 then [] else [0, 0, 0, 0];
            && |b| >= n && IntelPacked(t) == Ok(b[..n] + pad + b[n..])
            && ((n + |pad|) % 8 == t.address % 8 <==> n == 12)
  {
    var b, n := Packed(t).value, if t.fmt == 1 || t.fmt == 3 then 16 else 12;
    PackedLength(t);
    PadPlace(t.address, n);
    CutAt(b, n);
    hide Packed;
  }

  lemma {:induction false} PadPlace(address: nat, n: nat)
    requires address % 4 == 0 && (n == 12 || n == 16)
    ensures address / 4 % 2 != 0 <==> address % 8 == 4
    ensures ((n + if address % 8 == 4 then 0 else 4) % 8 == address % 8 <==> n == 12)
  {
  }

  lemma {:induction false} CutAt(b: seq<byte>, n: nat)
    requires n <= |b|
    ensures b == b[..n] + [] + b[n..] && Take(b, n) == b[..n] && Drop(b, n) == b[n..]
  {
  }

  lemma {:induction false} PackedLength(t: Fields)
    requires Packed(t).Ok?
    ensures HeaderWords(t).Ok? && |Packed(t).value| >= if t.fmt == 1 || t.fmt == 3 then 16 else 12
  {
    HeaderLength(t);
    hide Check, HeaderWords, Serialise, AllWords;
    assert Packed(t).value == Serialise(Words(t).value);
  }

  lemma HeaderLength(t: Fields)
    ensures HeaderWords(t).Ok? ==> |HeaderWords(t).value| == if t.fmt == 1 || t.fmt == 3 then 4 else 3
  {
    KnownPackets(t);
    hide Word0, RequestWord, IdToInt, Or;
  }

  // The bytes of a word are those of the stream, most significant first.
  lemma {:induction false} SerialisedAt(ws: seq<nat>, i: nat)
    requires i < |ws|
    ensures Serialise(ws)[4 * i..4 * i + 4] ==
            [ws[i] / 0x100_0000 % 0x100, ws[i] / 0x1_0000 % 0x100, ws[i] / 0x100 % 0x100, ws[i] % 0x100]
  {
    SerialisedWord(ws, i);
    assert ws[i] / 0x100_0000 == ws[i] / 256 / 256 / 256 && ws[i] / 0x1_0000 == ws[i] / 256 / 256;
    hide Serialise;
  }

  lemma {:induction false} SerialisedWord(ws: seq<nat>, i: nat)
    requires i < |ws|
    ensures Serialise(ws)[4 * i..4 * i + 4] == WordBytes(ws[i])
  {
    hide WordBytes;
    if i > 0 {
      SerialisedWord(ws[1..], i - 1);
      ShiftedSlice(WordBytes(ws[0]), Serialise(ws[1..]), 4 * (i - 1));
    }
  }

  lemma ShiftedSlice(a: seq<byte>, b: seq<byte>, i: nat)
    requires |a| == 4 && i + 4 <= |b|
    ensures (a + b)[i + 4..i + 8] == b[i..i + 4]
  {
  }

  // ----- The packet object -----

  lemma NextWord(bs: seq<byte>, k: nat, end: nat)
    requires k + 4 <= end <= |bs| && (end - k) % 4 == 0
    ensures Deserialise(bs[k..end]) ==
            [FromBytes(bs[k], bs[k + 1], bs[k + 2], bs[k + 3])] + Deserialise(bs[k + 4..end])
  {
    assert bs[k..end][4..] == bs[k + 4..end];
  }

  // Big-endian words from bytes, up to a partial one
  method Split(bs: seq<byte>) returns (ws: seq<nat>, whole: bool)
    ensures whole <==> |bs| % 4 == 0
    ensures ws == Deserialise(bs[..|bs| / 4 * 4])
  {
    hide Deserialise, FromBytes;
    ws := [];
    var k := 0;
    assert Deserialise(bs[|bs| / 4 * 4..|bs| / 4 * 4]) == [];
    ghost var end := |bs| / 4 * 4;
    while k < |bs|
      invariant k % 4 == 0 && k <= end
      invariant ws + Deserialise(bs[k..end]) == Deserialise(bs[..end])
      decreases |bs| - k
    {
      if |bs| < k + 4 {
        return ws, false;
      }
      NextWord(bs, k, end);
      ws := ws + [FromBytes(bs[k], bs[k + 1], bs[k + 2], bs[k + 3])];
      k := k + 4;
    }
    whole := true;
  }

  // Bytes from words, as long as every word has 32 bits
  method Join(ws: seq<nat>) returns (r: Result<seq<byte>>)
    ensures r == if AllWords(ws) then Ok(Serialise(ws)) else Err(StructError)
  {
    var res := [];
    var i := 0;
    while i < |ws|
      invariant i <= |ws|
      invariant forall j :: 0 <= j < i ==> ws[j] < WORD_LIMIT
      invariant res + Serialise(ws[i..]) == Serialise(ws)
    {
      if ws[i] >= WORD_LIMIT {
        return Err(StructError);
      }
      res := res + WordBytes(ws[i]);
      i := i + 1;
    }
    assert res == Serialise(ws);
    r := Ok(res);
  }

  class Packet {
    var fmt: nat
    var kind: nat
    var tc: nat
    var th: nat
    var td: nat
    var ep: nat
    var attr: nat
    var at: nat
    var length: nat
    var completerId: PcieId
    var status: nat
    var bcm: nat
    var byteCount: nat
    var requesterId: PcieId
    var destId: PcieId
    var tag: nat
    var firstBe: nat
    var lastBe: nat
    var lowerAddress: nat
    var address: nat
    var registerNumber: nat
    var data: seq<nat>

    function View(): Fields
      reads this
    {
      Fields(fmt, kind, tc, th, td, ep, attr, at, length, completerId, status, bcm, byteCount, requesterId, destId,
             tag, firstBe, lastBe, lowerAddress, address, registerNumber, data)
    }

    constructor ()
      ensures View() == Fields(0, 0, 0, 0, 0, 0, 0, 0, 0, PcieId(0, 0, 0), 0, 0, 0, PcieId(0, 0, 0), PcieId(0, 0, 0),
                               0, 0, 0, 0, 0, 0, [])
    {
      fmt, kind, tc, th, td, ep, attr, at, length := 0, 0, 0, 0, 0, 0, 0, 0, 0;
      completerId, requesterId, destId := NO_ID, NO_ID, NO_ID;
      status, bcm, byteCount, tag, firstBe, lastBe := 0, 0, 0, 0, 0, 0;
      lowerAddress, address, registerNumber, data := 0, 0, 0, [];
    }

    method SetRange(addr: nat, n: nat) returns (firstPad: nat, lastPad: nat)
      modifies this`address, this`length, this`firstBe, this`lastBe
      ensures firstPad == FirstPad(addr) && lastPad == LastPad(addr, n)
      ensures address == addr / 4 * 4 && length == (n + firstPad + lastPad + 3) / 4
      ensures firstBe == if length == 1 then And(FirstMask(firstPad), LastMask(lastPad)) else FirstMask(firstPad)
      ensures lastBe == if length == 1 then 0 else LastMask(lastPad)
    {
      hide And, ShiftLeft, ShiftRight;
      address := addr / 4 * 4;
      firstPad := addr % 4;
      lastPad := 3 - (addr + n - 1) % 4;
      length := (n + firstPad + lastPad + 3) / 4;
      firstBe := ShiftLeft(15, firstPad) % 16;
      lastBe := ShiftRight(15, lastPad);
      if length == 1 {
        firstBe := And(firstBe, lastBe);
        lastBe := 0;
      }
    }

    method SetBe(addr: nat, n: nat) returns (firstPad: nat, lastPad: nat)
      modifies this
      ensures View() == WithBe(old(View()), addr, n)
      ensures firstPad == FirstPad(addr) && lastPad == LastPad(addr, n)
    {
      hide And, LowerAddress, FirstMask, LastMask, FirstPad, LastPad;
      firstPad, lastPad := SetRange(addr, n);
      lowerAddress := LowerAddress(View());
    }

    method SetData(bs: seq<byte>) returns (ok: bool)
      modifies this`data, this`length
      ensures ok <==> |bs| % 4 == 0
      ensures ok ==> View() == WithBytes(old(View()), bs)
      ensures !ok ==> View() == old(View()).(data := Deserialise(bs[..|bs| / 4 * 4]))
    {
      hide Deserialise;
      data, ok := Split(bs);
      if !ok {
        return;
      }
      assert bs[..|bs| / 4 * 4] == bs;
      length := |data|;
    }

    method SetBeData(addr: nat, bytes: seq<byte>)
      modifies this
      ensures View() == WithBeData(old(View()), addr, bytes)
    {
      hide WithBe, Deserialise, FirstPad, LastPad, Zeros;
      var firstPad, lastPad := SetBe(addr, |bytes|);
      var ok := SetData(Zeros(firstPad) + bytes + Zeros(lastPad));
    }

    method GetData() returns (r: Result<seq<byte>>)
      ensures r == if AllWords(data) then Ok(Serialise(data)) else Err(StructError)
    {
      r := Join(data);
    }

    method PackHeader() returns (l: nat)
      ensures l == Word0(View())
    {
      hide Or;
      l := length % 1024;
      l := Or(l, at % 4 * 1024);
      l := Or(l, attr % 4 * 4096);
      l := Or(l, ep % 2 * 16384);
      l := Or(l, td % 2 * 32768);
      l := Or(l, th % 2 * 65536);
      l := Or(l, attr / 4 % 2 * 4 * 65536);
      l := Or(l, tc % 8 * 0x10_0000);
      l := Or(l, kind % 32 * 0x100_0000);
      l := Or(l, fmt % 8 * 0x2000_0000);
    }

    method PackRequest() returns (l: nat)
      ensures l == RequestWord(View())
    {
      hide Or, IdToInt;
      l := firstBe % 16;
      l := Or(l, lastBe % 16 * 16);
      l := Or(l, tag % 256 * 256);
      l := Or(l, IdToInt(requesterId) * 65536);
    }

    method PackAddress() returns (ws: seq<nat>)
      ensures ws == AddressWords(View())
    {
      OrZero(address / WORD_LIMIT % WORD_LIMIT);
      hide Or;
      ws := [];
      var l := 0;
      if fmt == FMT_4DW || fmt == FMT_4DW_DATA {
        l := Or(l, address / WORD_LIMIT % WORD_LIMIT);
        ws := ws + [l];
      }
      l := Or(l, address % WORD_LIMIT / 4 * 4);
      ws := ws + [l];
    }

    method PackWords() returns (r: Result<seq<nat>>)
      ensures r == HeaderWords(View())
    {
      hide Or, IdToInt, Word0, RequestWord, AddressWords;
      var t := View();
      var l := PackHeader();
      var pkt := [l];
      if t.Config() || t.Memory() || t.Io() {
        l := PackRequest();
        pkt := pkt + [l];
        if t.Config() {
          l := registerNumber % 1024 * 4;
          l := Or(l, IdToInt(destId) * 65536);
          pkt := pkt + [l];
          assert pkt == [Word0(t), RequestWord(t), l];
        } else {
          var a := PackAddress();
          pkt := pkt + a;
          assert pkt == [Word0(t), RequestWord(t)] + AddressWords(t);
        }
      } else if t.Completion() {
        l := byteCount % 4096;
        l := Or(l, bcm % 2 * 4096);
        l := Or(l, status % 8 * 8192);
        l := Or(l, IdToInt(completerId) * 65536);
        pkt := pkt + [l];
        ghost var l1 := l;
        l := lowerAddress % 128;
        l := Or(l, tag % 256 * 256);
        l := Or(l, IdToInt(requesterId) * 65536);
        pkt := pkt + [l];
        assert pkt == [Word0(t), l1, l];
      } else {
        return Err(UnknownType);
      }
      r := Ok(pkt);
    }

    method Pack() returns (r: Result<seq<byte>>)
      ensures r == Packed(View())
    {
      hide HeaderWords, Check;
      var t := View();
      var c := Check(t);
      if c.Err? {
        return Err(c.error);
      }
      var h := PackWords();
      if h.Err? {
        return Err(h.error);
      }
      var pkt := h.value;
      if t.HasData() {
        pkt := pkt + data;
      }
      assert Words(t) == Ok(pkt) by {
        assert h.value + [] == h.value;
      }
      r := Join(pkt);
    }

    method IntelPack() returns (r: Result<seq<byte>>)
      ensures r == IntelPacked(View())
    {
      hide Packed, Take, Drop;
      var b := Pack();
      if b.Err? || address / 4 % 2 != 0 {
        return b;
      }
      if fmt == FMT_4DW || fmt == FMT_4DW_DATA {
        r := Ok(Take(b.value, 4 * 4) + [0, 0, 0, 0] + Drop(b.value, 4 * 4));
      } else {
        r := Ok(Take(b.value, 4 * 3) + [0, 0, 0, 0] + Drop(b.value, 4 * 3));
      }
    }

    method UnpackHeader(w: nat)
      modifies this`length, this`at, this`attr, this`ep, this`td, this`th, this`tc, this`kind, this`fmt
      ensures at == Field(w, 1024, 4) && attr == Or(Field(w, 4096, 4), Field(w, 0x4_0000, 2) * 4)
      ensures ep == Field(w, 16384, 2) && td == Field(w, 32768, 2) && th == Field(w, 65536, 2)
      ensures tc == Field(w, 0x10_0000, 8) && kind == Field(w, 0x100_0000, 32) && fmt == Field(w, 0x2000_0000, 8)
      ensures length == if View().HasData() && Field(w, 1, 1024) == 0 then 1024 else Field(w, 1, 1024)
    {
      hide Or, Field;
      length := Field(w, 1, 1024);
      at := Field(w, 1024, 4);
      attr := Field(w, 4096, 4);
      ep := Field(w, 16384, 2);
      td := Field(w, 32768, 2);
      th := Field(w, 65536, 2);
      attr := Or(attr, Field(w, 0x4_0000, 2) * 4);
      tc := Field(w, 0x10_0000, 8);
      kind := Field(w, 0x100_0000, 32);
      fmt := Field(w, 0x2000_0000, 8);
      if fmt == FMT_3DW_DATA || fmt == FMT_4DW_DATA {
        if length == 0 {
          length := 1024;
        }
      }
    }

    method UnpackWord0(w: nat)
      modifies this
      ensures View() == WithHeader(old(View()), w)
    {
      hide Or, Field;
      UnpackHeader(w);
    }

    method UnpackRequest(w: nat)
      modifies this`firstBe, this`lastBe, this`tag, this`requesterId
      ensures firstBe == Field(w, 1, 16) && lastBe == Field(w, 16, 16) && tag == Field(w, 256, 256)
      ensures requesterId == IdFromInt(w / 65536)
    {
      hide Field, IdFromInt;
      firstBe := Field(w, 1, 16);
      lastBe := Field(w, 16, 16);
      tag := Field(w, 256, 256);
      requesterId := IdFromInt(w / 65536);
    }

    method UnpackWord1(w: nat)
      modifies this
      ensures View() == WithRequest(old(View()), w)
    {
      hide Field, IdFromInt;
      UnpackRequest(w);
    }

    method UnpackTarget(pkt: seq<nat>)
      requires |pkt| >= 3 && (View().Long() ==> |pkt| >= 4)
      requires View().Config() || View().Memory() || View().Io()
      modifies this
      ensures View() == WithTarget(old(View()), pkt)
    {
      hide Or, IdFromInt, ShiftRight;
      if (kind == 4 || kind == 5) && (fmt == FMT_3DW || fmt == FMT_3DW_DATA) {
        registerNumber := ShiftRight(pkt[2] / 4, 0x3ff);
        destId := IdFromInt(pkt[2] / 65536);
      } else if fmt == FMT_3DW || fmt == FMT_3DW_DATA {
        address := pkt[2] % WORD_LIMIT / 4 * 4;
      } else if fmt == FMT_4DW || fmt == FMT_4DW_DATA {
        address := Or(pkt[2] % WORD_LIMIT * WORD_LIMIT, pkt[3] % WORD_LIMIT / 4 * 4);
      }
    }

    method UnpackCompletionHead(w: nat)
      modifies this
      ensures View() == WithCompletionHead(old(View()), w)
    {
      hide Field, IdFromInt;
      byteCount := Field(w, 1, 4096);
      bcm := Field(w, 4096, 2);
      status := Field(w, 8192, 8);
      completerId := IdFromInt(w / 65536);
    }

    method UnpackCompletionTail(w: nat)
      modifies this
      ensures View() == WithCompletionTail(old(View()), w)
    {
      hide Field, IdFromInt;
      lowerAddress := Field(w, 1, 128);
      tag := Field(w, 256, 256);
      requesterId := IdFromInt(w / 65536);
      if byteCount == 0 {
        byteCount := 4096;
      }
    }

    // Words are read one after the other, so a packet that is too short has set some fields already.
    method UnpackBody(pkt: seq<nat>) returns (r: Result<()>)
      modifies this
      ensures View() == BodyAfter(old(View()), pkt)
      ensures r.Ok? <==> WithBody(old(View()), pkt).Ok?
      ensures r.Err? ==> WithBody(old(View()), pkt) == Err(r.error)
    {
      hide WithRequest, WithCompletionHead, WithCompletionTail, WithTarget;
      var t := View();
      if t.Config() || t.Memory() || t.Io() {
        if |pkt| < 2 {
          return Err(TooShort);
        }
        UnpackWord1(pkt[1]);
        RequestKeepsFormat(t, pkt[1]);
        if |pkt| < 3 || (t.Long() && |pkt| < 4) {
          return Err(TooShort);
        }
        UnpackTarget(pkt);
      } else if t.Completion() {
        if |pkt| < 2 {
          return Err(TooShort);
        }
        UnpackCompletionHead(pkt[1]);
        if |pkt| < 3 {
          return Err(TooShort);
        }
        UnpackCompletionTail(pkt[2]);
      } else {
        return Err(UnknownType);
      }
      r := Ok(());
    }

    method UnpackData(pkt: seq<nat>)
      requires |pkt| >= 3 && (View().Long() ==> |pkt| >= 4)
      modifies this
      ensures View() == var v := WithData(old(View()), pkt); v.(lowerAddress := LowerAddress(v))
    {
      hide LowerAddress;
      if |pkt| == 3 {
      } else if fmt == FMT_3DW_DATA {
        data := pkt[3..];
      } else if fmt == FMT_4DW_DATA {
        data := pkt[4..];
      }
      lowerAddress := LowerAddress(View());
    }

    method Unpack(bs: seq<byte>, check: bool) returns (r: Result<()>)
      modifies this
      ensures View() == UnpackAfter(old(View()), bs)
      ensures Unpacked(old(View()), bs, check) == if r.Ok? then Ok(View()) else Err(r.error)
    {
      ghost var t := View();
      AfterSuccess(t, bs, check);
      var pkt, whole := Split(bs);
      if !whole {
        return Err(StructError);
      }
      assert bs[..|bs| / 4 * 4] == bs;
      if |pkt| == 0 {
        return Err(TooShort);
      }
      hide WithHeader, WithBody, WithData, LowerAddress, Check, Deserialise, BodyAfter;
      UnpackWord0(pkt[0]);
      ghost var h := WithHeader(t, pkt[0]);
      r := UnpackBody(pkt);
      if r.Err? {
        return;
      }
      BodyAfterSuccess(h, pkt);
      UnpackData(pkt);
      if check {
        r := Check(View());
      }
    }

    method IntelUnpack(b: seq<byte>) returns (r: Result<()>)
      modifies this
      ensures View() == IntelAfter(old(View()), b)
      ensures IntelUnpacked(old(View()), b) == if r.Ok? then Ok(View()) else Err(r.error)
    {
      ghost var t := View();
      AfterSuccess(t, Take(b, 32 * 4), false);
      IntelAfterSuccess(t, b);
      hide Unpacked, UnpackAfter, Take, Drop;
      r := Unpack(Take(b, 32 * 4), false);
      if r.Err? {
        return;
      }
      if address / 4 % 2 != 0 {
        r := Unpack(b, true);
      } else if fmt == FMT_4DW || fmt == FMT_4DW_DATA {
        r := Unpack(Take(b, 4 * 4) + Drop(b, 4 * 5), true);
      } else {
        r := Unpack(Take(b, 4 * 3) + Drop(b, 4 * 4), true);
      }
    }
  }
}
