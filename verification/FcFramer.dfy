/** The receive framing block (ip/fc_framer/fc_framer.sv) and the packets it delivers. */
module FcFramer {
  import opened FcPrimitives

  // ----- The clocked block -----

  // The registers of the block.  While packetDetect is false, packetLength means nothing.
  datatype Registers = Registers(
    data: Word32, valid: bool, sop: bool, eop: bool,
    packetDetect: bool, packetLength: nat, packetCounter: nat)

  const RESET := Registers(0, false, false, false, false, 0, 0)

  // A valid word, and whether the link is active when it arrives
  datatype Arrival = Arrival(active: bool, word: TxWord)
  {
    const data: Word32 := word.data
  }

  datatype Kind = Silent | Data | Sof | Eof | Fill | Other

  function KindOf(w: Arrival): Kind
  {
    if !w.active then Silent
    else if w.word.datak != CONTROL then Data
    else if IsSof(MapPrimitive(w.data)) then Sof
    else if IsEof(MapPrimitive(w.data)) then Eof
    else if IsFill(MapPrimitive(w.data)) then Fill
    else Other
  }

  // One clock on a valid word.  On a link that is not active every word counts as data, and
  // nothing is delivered.
  function Step(r: Registers, mtu: nat, w: Arrival): Registers
  {
    var inside := r.packetDetect;
    var full := inside && r.packetLength >= mtu;
    var longer := if inside && !full then r.packetLength + 4 else r.packetLength;
    match KindOf(w)
    case Silent => Registers(w.data, false, false, full, inside && !full, longer, r.packetCounter)
    case Data => Registers(w.data, inside, false, full, inside && !full, longer, r.packetCounter)
    case Sof => Registers(w.data, !inside, true, inside, true, 8, r.packetCounter)
    case Eof => Registers(w.data, inside, false, inside, false, longer, r.packetCounter + 1)
    case Fill => Registers(w.data, false, false, inside, false, longer, r.packetCounter)
    case Other => Registers(w.data, true, !inside, true, false, longer, r.packetCounter + 1)
  }

  class Framer {
    const mtu: nat
    var data: Word32
    var valid: bool
    var sop: bool
    var eop: bool
    var packetDetect: bool
    var packetLength: nat
    var packetCounter: nat

    function View(): Registers
      reads this
    {
      Registers(data, valid, sop, eop, packetDetect, packetLength, packetCounter)
    }

    constructor (mtu: nat)
      ensures this.mtu == mtu && View() == RESET
    {
      this.mtu := mtu;
      data, valid, sop, eop := 0, false, false, false;
      packetDetect, packetLength, packetCounter := false, 0, 0;
    }

    // One receive clock.  Later assignments override earlier ones, and every right-hand side
    // reads the registers as they were before the clock.
    method Clock(reset: bool, avrxValid: bool, active: bool, word: TxWord)
      modifies this
      ensures View() == if reset then RESET
                        else if !avrxValid then old(View())
                        else Step(old(View()), mtu, Arrival(active, word))
    {
      var detect, length := packetDetect, packetLength;
      if reset {
        data, valid, sop, eop := 0, false, false, false;
        packetDetect, packetLength, packetCounter := false, 0, 0;
      } else if avrxValid {
        data := word.data;
        valid := active && detect;
        sop := false;
        eop := false;
        if detect {
          if length >= mtu {
            eop := true;
            packetDetect := false;
          } else {
            packetLength := length + 4;
          }
        }
        if word.datak == CONTROL && active {
          eop := detect;
          packetDetect := false;
          var p := MapPrimitive(word.data);
          if IsSof(p) {
            sop := true;
            packetDetect := true;
            packetLength := 8;
            valid := !detect;
          } else if IsEof(p) {
            packetCounter := packetCounter + 1;
          } else if IsFill(p) {
            valid := false;
          } else {
            sop := !detect;
            eop := true;
            packetCounter := packetCounter + 1;
            valid := true;
          }
        }
      }
    }
  }

  // ----- What a consumer of the output sees -----

  datatype Beat = Beat(data: Word32, sop: bool, eop: bool)

  function Delivered(r: Registers): seq<Beat>
  {
    if r.valid then [Beat(r.data, r.sop, r.eop)] else []
  }

  // The beats of a run over words received at consecutive clocks
  function Beats(r: Registers, mtu: nat, ws: seq<Arrival>): seq<Beat>
    decreases |ws|
  {
    if ws == [] then []
    else
      var r' := Step(r, mtu, ws[0]);
      Delivered(r') + Beats(r', mtu, ws[1..])
  }

  // Every kind of word, by itself: words on a link that is not active, data, the start-of-frame words, the
  // end-of-frame words, the fill words, and any other control word
  lemma KindsOfWords(w: Arrival)
    ensures KindOf(w) ==
            if !w.active then Silent
            else if w.word.datak != 8 then Data
            else if w.data in {0xBCB5_5555, 0xBCB5_3535, 0xBCB5_5656, 0xBCB5_3636, 0xBCB5_5858} then Sof
            else if w.data in {0xBCB5_7575, 0xBC95_7575, 0xBCB5_F5F5, 0xBC95_F5F5,
                               0xBCB5_D5D5, 0xBC95_D5D5, 0xBCAA_D5D5, 0xBC8A_D5D5} then Eof
            else if w.data in {0xBC95_B5B5, 0xBC94_FFFF} then Fill
            else Other
  {
    DelimiterWords(w.data);
    hide MapPrimitive, IsSof, IsEof, IsFill;
  }

  // What a word does to the output and to the packet.  It appears inside a packet unless it is a start or a fill
  // word, and outside one if it is a start or no delimiter at all.  It is marked as a start if it opens a packet, or
  // as one of its own; as an end if it is a control word that closes one, or the word at which the length runs out.
  // A packet goes on behind a start, and behind data until the length runs out.  The counter counts control words
  // but starts and fill words, in packets or not.
  lemma WordDelivered(r: Registers, mtu: nat, w: Arrival)
    ensures var t, inside, kind := Step(r, mtu, w), r.packetDetect, KindOf(w);
            && t.data == w.data
            && (t.valid <==> if inside then kind in {Data, Eof, Other} else kind in {Sof, Other})
            && (t.valid ==> (t.sop <==> !inside))
            && (t.valid ==> (t.eop <==> if kind == Data then r.packetLength >= mtu else kind in {Eof, Other}))
            && (t.packetDetect <==> kind == Sof || (inside && kind in {Silent, Data} && r.packetLength < mtu))
            && (t.packetDetect ==> t.packetLength == if kind == Sof then 8 else r.packetLength + 4)
            && t.packetCounter == r.packetCounter + if kind in {Eof, Other} then 1 else 0
  {
    hide KindOf;
  }

  // ----- The reference parser -----

  // Closed by an end-of-frame or another control word, Cut at the length limit, Aborted by a fill
  // word or at the length limit on a link that is not active, or still Open when the words run out.
  datatype Ending = Closed | Cut | Aborted | Open

  // nested counts the start-of-frame words dropped inside the packet, and silent the words that arrived inside
  // it while the link was not active.
  datatype Packet = Packet(words: seq<Word32>, ending: Ending, nested: nat, silent: nat)

  datatype Parsed = Parsed(packet: Packet, rest: seq<Arrival>)

  // The remainder of a packet whose next word is counted as its length-th byte.
  function Body(mtu: nat, ws: seq<Arrival>, length: nat): (r: Parsed)
    ensures |r.rest| <= |ws|
  {
    if ws == [] then Parsed(Packet([], Open, 0, 0), [])
    else
      match KindOf(ws[0])
      case Silent =>
        if length >= mtu then Parsed(Packet([], Aborted, 0, 1), ws[1..])
        else
          var r := Body(mtu, ws[1..], length + 4);
          r.(packet := r.packet.(silent := r.packet.silent + 1))
      case Data =>
        if length >= mtu then Parsed(Packet([ws[0].data], Cut, 0, 0), ws[1..])
        else
          var r := Body(mtu, ws[1..], length + 4);
          r.(packet := r.packet.(words := [ws[0].data] + r.packet.words))
      case Sof =>
        var r := Body(mtu, ws[1..], 8);
        r.(packet := r.packet.(nested := r.packet.nested + 1))
      case Fill => Parsed(Packet([], Aborted, 0, 0), ws[1..])
      case Eof => Parsed(Packet([ws[0].data], Closed, 0, 0), ws[1..])
      case Other => Parsed(Packet([ws[0].data], Closed, 0, 0), ws[1..])
  }

  // A frame runs from its start-of-frame word; a lone control word is a packet of its own; words
  // between packets carry nothing.
  function Parse(mtu: nat, ws: seq<Arrival>): seq<Packet>
    decreases |ws|
  {
    if ws == [] then []
    else
      match KindOf(ws[0])
      case Sof =>
        var r := Body(mtu, ws[1..], 8);
        [r.packet.(words := [ws[0].data] + r.packet.words)] + Parse(mtu, r.rest)
      case Other => [Packet([ws[0].data], Closed, 0, 0)] + Parse(mtu, ws[1..])
      case _ => Parse(mtu, ws[1..])
  }

  predicate Ends(e: Ending)
  {
    e.Closed? || e.Cut?
  }

  // The beats of the words of a packet, of which the first is marked when first is set.
  function WordBeats(words: seq<Word32>, first: bool, ends: bool): seq<Beat>
  {
    if words == [] then []
    else [Beat(words[0], first, ends && |words| == 1)] + WordBeats(words[1..], false, ends)
  }

  function Flatten(ps: seq<Packet>): seq<Beat>
  {
    if ps == [] then []
    else WordBeats(ps[0].words, true, Ends(ps[0].ending)) + Flatten(ps[1..])
  }

  // ----- The clocked block refines the parser -----

  // One word inside a packet, on the output and in the parser
  lemma {:induction false} InsideStep(r: Registers, mtu: nat, ws: seq<Arrival>)
    requires r.packetDetect && ws != []
    ensures var r', body := Step(r, mtu, ws[0]), Body(mtu, ws, r.packetLength);
            && Beats(r, mtu, ws) == Delivered(r') + Beats(r', mtu, ws[1..])
            && if r'.packetDetect then
                 var next := Body(mtu, ws[1..], r'.packetLength);
                 && body.rest == next.rest && body.packet.ending == next.packet.ending
                 && if KindOf(ws[0]).Data? then
                      && Delivered(r') == [Beat(ws[0].data, false, false)]
                      && body.packet.words == [ws[0].data] + next.packet.words
                    else Delivered(r') == [] && body.packet.words == next.packet.words
               else
                 && body.rest == ws[1..]
                 && if Ends(body.packet.ending) then
                      Delivered(r') == [Beat(ws[0].data, false, true)] && body.packet.words == [ws[0].data]
                    else Delivered(r') == [] && body.packet.words == []
  {
    hide KindOf;
  }

  lemma {:induction false} BodyEndsNonEmpty(mtu: nat, ws: seq<Arrival>, length: nat)
    ensures Ends(Body(mtu, ws, length).packet.ending) ==> Body(mtu, ws, length).packet.words != []
    decreases |ws|
  {
    hide KindOf;
    if ws != [] {
      BodyEndsNonEmpty(mtu, ws[1..], length + 4);
      BodyEndsNonEmpty(mtu, ws[1..], 8);
    }
  }

  // The first word of a packet, and the rest of it
  lemma {:induction false} FirstBeat(word: Word32, words: seq<Word32>, first: bool, ends: bool)
    ensures WordBeats([word] + words, first, ends) ==
            [Beat(word, first, ends && words == [])] + WordBeats(words, false, ends)
    ensures WordBeats([], first, ends) == []
  {
    assert ([word] + words)[1..] == words;
  }

  lemma Associates<T>(a: seq<T>, b: seq<T>, c: seq<T>)
    ensures a + b + c == a + (b + c) && [] + c == c
  {
  }

  lemma {:induction false} InsideRefines(r: Registers, mtu: nat, ws: seq<Arrival>)
    requires r.packetDetect
    ensures var body := Body(mtu, ws, r.packetLength);
            Beats(r, mtu, ws) ==
              WordBeats(body.packet.words, false, Ends(body.packet.ending)) + Flatten(Parse(mtu, body.rest))
    decreases |ws|
  {
    if ws == [] {
      assert Body(mtu, ws, r.packetLength).rest == [];
    } else {
      hide KindOf, Step, Body, Delivered, Beats, Parse, Flatten, WordBeats, Ends;
      InsideStep(r, mtu, ws);
      var r', body := Step(r, mtu, ws[0]), Body(mtu, ws, r.packetLength);
      var ends, tail := Ends(body.packet.ending), Flatten(Parse(mtu, body.rest));
      if r'.packetDetect {
        InsideRefines(r', mtu, ws[1..]);
        BodyEndsNonEmpty(mtu, ws[1..], r'.packetLength);
        var words := Body(mtu, ws[1..], r'.packetLength).packet.words;
        FirstBeat(ws[0].data, words, false, ends);
        Associates([Beat(ws[0].data, false, false)], WordBeats(words, false, ends), tail);
      } else {
        OutsideRefines(r', mtu, ws[1..]);
        FirstBeat(ws[0].data, [], false, ends);
        assert [ws[0].data] + [] == [ws[0].data];
      }
    }
  }

  lemma {:induction false} OutsideRefines(r: Registers, mtu: nat, ws: seq<Arrival>)
    requires !r.packetDetect
    ensures Beats(r, mtu, ws) == Flatten(Parse(mtu, ws))
    decreases |ws|
  {
    hide KindOf;
    if ws != [] {
      var r' := Step(r, mtu, ws[0]);
      if r'.packetDetect {
        InsideRefines(r', mtu, ws[1..]);
        BodyEndsNonEmpty(mtu, ws[1..], 8);
        var body := Body(mtu, ws[1..], 8).packet;
        var words := [ws[0].data] + body.words;
        assert words[1..] == body.words;
      } else {
        OutsideRefines(r', mtu, ws[1..]);
        if KindOf(ws[0]).Other? {
          assert WordBeats([ws[0].data][1..], false, true) == [];
        }
      }
    }
  }

  // For every word sequence, on a link that is active or not, the output of the clocked block is the parser's
  // packet list.
  lemma {:induction false} FramerParses(mtu: nat, ws: seq<Arrival>)
    ensures Beats(RESET, mtu, ws) == Flatten(Parse(mtu, ws))
  {
    OutsideRefines(RESET, mtu, ws);
  }

  // ----- SOP and EOP alternate -----

  // Every first beat of a packet is marked SOP, no other is, and EOP ends the packet.
  predicate Alternates(bs: seq<Beat>, open: bool)
  {
    bs == [] || (bs[0].sop == !open && Alternates(bs[1..], !bs[0].eop))
  }

  // Whether a stream that alternates is inside a packet at its end
  function OpenAfter(bs: seq<Beat>, open: bool): bool
  {
    if bs == [] then open else OpenAfter(bs[1..], !bs[0].eop)
  }

  lemma {:induction false} AlternatesSplits(xs: seq<Beat>, ys: seq<Beat>, open: bool)
    ensures Alternates(xs + ys, open) <==> Alternates(xs, open) && Alternates(ys, OpenAfter(xs, open))
    ensures OpenAfter(xs + ys, open) == OpenAfter(ys, OpenAfter(xs, open))
  {
    if xs == [] {
      assert xs + ys == ys;
    } else {
      AlternatesSplits(xs[1..], ys, !xs[0].eop);
      assert (xs + ys)[1..] == xs[1..] + ys;
    }
  }

  lemma {:induction false} WordsAlternate(words: seq<Word32>, first: bool, ends: bool)
    requires words != []
    ensures Alternates(WordBeats(words, first, ends), !first)
    ensures OpenAfter(WordBeats(words, first, ends), !first) == !ends
  {
    if |words| > 1 {
      WordsAlternate(words[1..], false, ends);
    } else {
      assert WordBeats(words[1..], false, ends) == [];
    }
  }

  // No packet but the last lacks its end.
  predicate AllEnded(ps: seq<Packet>)
  {
    forall i :: 0 <= i < |ps| - 1 ==> Ends(ps[i].ending)
  }

  lemma {:induction false} FlattenAlternates(ps: seq<Packet>)
    requires forall i :: 0 <= i < |ps| ==> ps[i].words != []
    ensures Alternates(Flatten(ps), false) <==> AllEnded(ps)
    ensures ps != [] ==> Flatten(ps) != [] && Flatten(ps)[0].sop
  {
    if ps != [] {
      var first := WordBeats(ps[0].words, true, Ends(ps[0].ending));
      WordsAlternate(ps[0].words, true, Ends(ps[0].ending));
      AlternatesSplits(first, Flatten(ps[1..]), false);
      FlattenAlternates(ps[1..]);
      forall i | 0 < i < |ps| - 1
        ensures ps[i] == ps[1..][i - 1]
      {
      }
    }
  }

  lemma {:induction false} OpenBodyIsLast(mtu: nat, ws: seq<Arrival>, length: nat)
    ensures Body(mtu, ws, length).packet.ending.Open? ==> Body(mtu, ws, length).rest == []
    decreases |ws|
  {
    hide KindOf;
    if ws != [] {
      OpenBodyIsLast(mtu, ws[1..], length + 4);
      OpenBodyIsLast(mtu, ws[1..], 8);
    }
  }

  // No packet is empty, and only the last can be open.
  ghost predicate WellPacked(ps: seq<Packet>)
  {
    forall i :: 0 <= i < |ps| ==> ps[i].words != [] && (ps[i].ending.Open? ==> i == |ps| - 1)
  }

  lemma WellPackedCons(p: Packet, ps: seq<Packet>)
    requires WellPacked(ps) && p.words != [] && (p.ending.Open? ==> ps == [])
    ensures WellPacked([p] + ps)
  {
  }

  lemma {:induction false} ParsedPackets(mtu: nat, ws: seq<Arrival>)
    ensures WellPacked(Parse(mtu, ws))
    decreases |ws|
  {
    hide KindOf;
    if ws != [] {
      if KindOf(ws[0]).Sof? {
        var r := Body(mtu, ws[1..], 8);
        OpenBodyIsLast(mtu, ws[1..], 8);
        ParsedPackets(mtu, r.rest);
        WellPackedCons(r.packet.(words := [ws[0].data] + r.packet.words), Parse(mtu, r.rest));
      } else {
        ParsedPackets(mtu, ws[1..]);
        if KindOf(ws[0]).Other? {
          WellPackedCons(Packet([ws[0].data], Closed, 0, 0), Parse(mtu, ws[1..]));
        }
      }
    }
  }

  // A frame was ended without its last word, and a packet came after it.
  predicate LosesAnEnd(ps: seq<Packet>)
  {
    exists i :: 0 <= i < |ps| - 1 && ps[i].ending.Aborted?
  }

  // SOP and EOP alternate, with at most one open packet at the end, if and only if no frame that a fill word
  // interrupts, or that runs out of length while the link is not active, is followed by another packet.
  lemma OutputAlternates(mtu: nat, ws: seq<Arrival>)
    ensures Alternates(Beats(RESET, mtu, ws), false) <==> !LosesAnEnd(Parse(mtu, ws))
  {
    FramerParses(mtu, ws);
    ParsedPackets(mtu, ws);
    FlattenAlternates(Parse(mtu, ws));
  }

  function Control(w: Word32): Arrival
  {
    Arrival(true, TxWord(CONTROL, w))
  }

  function Plain(w: Word32): Arrival
  {
    Arrival(true, TxWord(0, w))
  }

  // A frame, an IDLE in its middle, and the next frame: two SOP beats and no EOP between them.
  lemma FillInsideFrame(mtu: nat)
    requires mtu >= 12
    ensures Beats(RESET, mtu, [Control(SOFI3), Plain(7), Control(IDLE), Control(SOFI3)]) ==
            [Beat(SOFI3, true, false), Beat(7, false, false), Beat(SOFI3, true, false)]
  {
    var sof, word, fill := Control(SOFI3), Plain(7), Control(IDLE);
    assert KindOf(sof).Sof? && KindOf(word).Data? && KindOf(fill).Fill?;
    hide KindOf;
    var ws := [sof, word, fill, sof];
    var r1 := Step(RESET, mtu, sof);
    var r2 := Step(r1, mtu, word);
    var r3 := Step(r2, mtu, fill);
    var r4 := Step(r3, mtu, sof);
    assert ws[1..][1..] == [fill, sof] && ws[1..][1..][1..] == [sof];
    assert Beats(r3, mtu, [sof]) == Delivered(r4);
    assert Beats(r2, mtu, [fill, sof]) == Delivered(r3) + Beats(r3, mtu, [sof]);
    assert Beats(r1, mtu, ws[1..]) == Delivered(r2) + Beats(r2, mtu, [fill, sof]);
  }

  // ----- The length limit -----

  // How long a packet may get
  function Allowed(mtu: nat, nested: nat): int
  {
    mtu + nested * (mtu - 8)
  }

  lemma AllowedMore(mtu: nat, nested: nat)
    ensures Allowed(mtu, 0) == mtu
    ensures Allowed(mtu, nested + 1) == Allowed(mtu, nested) + (mtu - 8)
  {
    assert (nested + 1) * (mtu - 8) == nested * (mtu - 8) + (mtu - 8);
  }

  lemma {:induction false} BodyLength(mtu: nat, ws: seq<Arrival>, length: nat)
    requires mtu % 4 == 0 && mtu >= 8 && length % 4 == 0 && 8 <= length <= mtu
    ensures var p := Body(mtu, ws, length).packet;
            && length - 4 + 4 * (|p.words| + p.silent) <= Allowed(mtu, p.nested)
            && (p.ending.Cut? && p.nested == 0 ==> length - 4 + 4 * (|p.words| + p.silent) == mtu)
    decreases |ws|
  {
    hide KindOf, Allowed;
    AllowedMore(mtu, 0);
    if ws != [] {
      if KindOf(ws[0]).Sof? {
        BodyLength(mtu, ws[1..], 8);
        AllowedMore(mtu, Body(mtu, ws[1..], 8).packet.nested);
      } else if (KindOf(ws[0]).Silent? || KindOf(ws[0]).Data?) && length < mtu {
        BodyLength(mtu, ws[1..], length + 4);
      }
    }
  }

  // Each packet is at most the MTU long, plus MTU - 8 bytes for every start-of-frame word dropped inside it, and
  // words that arrive on a link that is not active count though they are not delivered; a runaway frame is cut at
  // exactly the MTU.
  lemma {:induction false} PacketLength(mtu: nat, ws: seq<Arrival>, i: nat)
    requires mtu % 4 == 0 && mtu >= 8 && i < |Parse(mtu, ws)|
    ensures var p := Parse(mtu, ws)[i];
            && 4 * (|p.words| + p.silent) <= Allowed(mtu, p.nested)
            && (p.nested == 0 ==> 4 * (|p.words| + p.silent) <= mtu)
            && (p.ending.Cut? && p.nested == 0 ==> 4 * (|p.words| + p.silent) == mtu)
    decreases |ws|
  {
    hide KindOf, Allowed;
    AllowedMore(mtu, 0);
    match KindOf(ws[0])
    case Sof =>
      var r := Body(mtu, ws[1..], 8);
      BodyLength(mtu, ws[1..], 8);
      if i > 0 {
        PacketLength(mtu, r.rest, i - 1);
      }
    case Other =>
      if i > 0 {
        PacketLength(mtu, ws[1..], i - 1);
      }
    case _ =>
      PacketLength(mtu, ws[1..], i);
  }

  // k data words
  function DataWords(k: nat): (ws: seq<Arrival>)
    ensures |ws| == k
  {
    if k == 0 then [] else [Plain(7)] + DataWords(k - 1)
  }

  // As much data as fits, a start-of-frame, and so on n times; then one word too many
  function Nesting(mtu: nat, n: nat): seq<Arrival>
    requires mtu >= 8
    decreases n
  {
    if n == 0 then DataWords((mtu - 8) / 4 + 1)
    else DataWords((mtu - 8) / 4) + ([Control(SOFI3)] + Nesting(mtu, n - 1))
  }

  lemma {:induction false} BodyTakesData(mtu: nat, k: nat, rest: seq<Arrival>, length: nat)
    requires length + 4 * k <= mtu
    ensures var b, r := Body(mtu, DataWords(k) + rest, length), Body(mtu, rest, length + 4 * k);
            && |b.packet.words| == k + |r.packet.words| && b.rest == r.rest
            && b.packet.(words := r.packet.words) == r.packet
    decreases k
  {
    assert KindOf(Plain(7)).Data?;
    hide KindOf;
    if k == 0 {
      assert DataWords(0) + rest == rest;
    } else {
      BodyTakesData(mtu, k - 1, rest, length + 4);
      var ws := DataWords(k) + rest;
      assert ws[0] == Plain(7) && ws[1..] == DataWords(k - 1) + rest;
    }
  }

  lemma {:induction false} NestedBody(mtu: nat, n: nat)
    requires mtu % 4 == 0 && mtu >= 8
    ensures var r := Body(mtu, Nesting(mtu, n), 8);
            && r.rest == [] && r.packet.ending.Cut? && r.packet.nested == n && r.packet.silent == 0
            && 4 + 4 * |r.packet.words| == Allowed(mtu, n)
    decreases n
  {
    var k := (mtu - 8) / 4;
    assert 8 + 4 * k == mtu;
    AllowedMore(mtu, if n == 0 then 0 else n - 1);
    assert KindOf(Plain(7)).Data? && KindOf(Control(SOFI3)).Sof?;
    hide KindOf, Allowed;
    if n == 0 {
      BodyTakesData(mtu, k, DataWords(1), 8);
      DataWordsJoin(k);
      assert DataWords(1) == [Plain(7)] + [] && DataWords(1)[1..] == [];
    } else {
      var rest := [Control(SOFI3)] + Nesting(mtu, n - 1);
      BodyTakesData(mtu, k, rest, 8);
      NestedBody(mtu, n - 1);
      assert rest[1..] == Nesting(mtu, n - 1);
    }
  }

  lemma {:induction false} DataWordsJoin(k: nat)
    ensures DataWords(k + 1) == DataWords(k) + DataWords(1)
  {
    if k > 0 {
      DataWordsJoin(k - 1);
    }
  }

  // The bound is tight: for every MTU and every n there is a frame with n start-of-frame words in it that reaches
  // it.
  lemma {:induction false} NestedSofLengthens(mtu: nat, n: nat)
    requires mtu % 4 == 0 && mtu >= 8
    ensures var ps := Parse(mtu, [Control(SOFI3)] + Nesting(mtu, n));
            && |ps| == 1 && ps[0].ending.Cut? && ps[0].nested == n && ps[0].silent == 0
            && 4 * |ps[0].words| == Allowed(mtu, n)
  {
    NestedBody(mtu, n);
    assert KindOf(Control(SOFI3)).Sof?;
    hide KindOf, Allowed, Body, Nesting;
    var ws := [Control(SOFI3)] + Nesting(mtu, n);
    assert ws[1..] == Nesting(mtu, n);
  }

  // ----- Pauses of the received words -----

  // A clock with a word, or one without a valid word
  datatype Clocked = Word(arrival: Arrival) | Pause

  // What a consumer that looks at every clock sees
  function PausedBeats(r: Registers, mtu: nat, cs: seq<Clocked>): seq<Beat>
    decreases |cs|
  {
    if cs == [] then []
    else
      var r' := if cs[0].Word? then Step(r, mtu, cs[0].arrival) else r;
      Delivered(r') + PausedBeats(r', mtu, cs[1..])
  }

  function WordsOf(cs: seq<Clocked>): seq<Arrival>
  {
    if cs == [] then []
    else if cs[0].Word? then [cs[0].arrival] + WordsOf(cs[1..])
    else WordsOf(cs[1..])
  }

  // What is on the output after each word: a beat or nothing
  function PerWord(r: Registers, mtu: nat, ws: seq<Arrival>): (outs: seq<seq<Beat>>)
    ensures |outs| == |ws| && forall i :: 0 <= i < |outs| ==> |outs[i]| <= 1
    decreases |ws|
  {
    if ws == [] then []
    else
      var r' := Step(r, mtu, ws[0]);
      [Delivered(r')] + PerWord(r', mtu, ws[1..])
  }

  function LeadingPauses(cs: seq<Clocked>): nat
  {
    if cs == [] || cs[0].Word? then 0 else 1 + LeadingPauses(cs[1..])
  }

  // The pauses that follow each word
  function Pauses(cs: seq<Clocked>): (ps: seq<nat>)
    ensures |ps| == |WordsOf(cs)|
  {
    if cs == [] then []
    else if cs[0].Word? then [LeadingPauses(cs[1..])] + Pauses(cs[1..])
    else Pauses(cs[1..])
  }

  function Repeat(out: seq<Beat>, n: nat): seq<Beat>
  {
    if n == 0 then [] else out + Repeat(out, n - 1)
  }

  lemma {:induction false} RepeatLength(out: seq<Beat>, n: nat)
    ensures |Repeat(out, n)| >= |out| || n == 0
    ensures Repeat(out, n) == [] <==> out == [] || n == 0
  {
    if n > 0 {
      RepeatLength(out, n - 1);
    }
  }

  // Each output once, and once more for every pause that follows it
  function Stretch(outs: seq<seq<Beat>>, pauses: seq<nat>): seq<Beat>
    requires |outs| == |pauses|
  {
    if outs == [] then [] else Repeat(outs[0], 1 + pauses[0]) + Stretch(outs[1..], pauses[1..])
  }

  function Concat(outs: seq<seq<Beat>>): seq<Beat>
  {
    if outs == [] then [] else outs[0] + Concat(outs[1..])
  }

  lemma {:induction false} StretchCons(out: seq<Beat>, n: nat, outs: seq<seq<Beat>>, pauses: seq<nat>)
    requires |outs| == |pauses|
    ensures Stretch([out] + outs, [n] + pauses) == out + (Repeat(out, n) + Stretch(outs, pauses))
  {
    assert ([out] + outs)[1..] == outs && ([n] + pauses)[1..] == pauses;
    assert Repeat(out, 1 + n) == out + Repeat(out, n);
  }

  lemma {:induction false} WordFirst(r: Registers, mtu: nat, cs: seq<Clocked>)
    requires cs != [] && cs[0].Word?
    ensures var r' := Step(r, mtu, cs[0].arrival);
            && PausedBeats(r, mtu, cs) == Delivered(r') + PausedBeats(r', mtu, cs[1..])
            && PerWord(r, mtu, WordsOf(cs)) == [Delivered(r')] + PerWord(r', mtu, WordsOf(cs[1..]))
            && Pauses(cs) == [LeadingPauses(cs[1..])] + Pauses(cs[1..])
            && Repeat(Delivered(r), LeadingPauses(cs)) == []
  {
    hide Step, Delivered;
    assert WordsOf(cs)[1..] == WordsOf(cs[1..]);
  }

  // The outputs hold during a pause: whatever the words and wherever the pauses, a consumer sees what it would
  // see without pauses, each beat once more for every pause clock that follows it.
  lemma {:induction false} PausesRepeatBeats(r: Registers, mtu: nat, cs: seq<Clocked>)
    ensures PausedBeats(r, mtu, cs) ==
            Repeat(Delivered(r), LeadingPauses(cs)) + Stretch(PerWord(r, mtu, WordsOf(cs)), Pauses(cs))
    decreases |cs|
  {
    hide Step, Delivered;
    if cs != [] {
      if cs[0].Word? {
        var r' := Step(r, mtu, cs[0].arrival);
        PausesRepeatBeats(r', mtu, cs[1..]);
        StretchCons(Delivered(r'), LeadingPauses(cs[1..]), PerWord(r', mtu, WordsOf(cs[1..])), Pauses(cs[1..]));
        WordFirst(r, mtu, cs);
        hide *;
      } else {
        PausesRepeatBeats(r, mtu, cs[1..]);
      }
    }
  }

  lemma {:induction false} PerWordIsBeats(r: Registers, mtu: nat, ws: seq<Arrival>)
    ensures Concat(PerWord(r, mtu, ws)) == Beats(r, mtu, ws)
    decreases |ws|
  {
    hide Step, Delivered;
    if ws != [] {
      PerWordIsBeats(Step(r, mtu, ws[0]), mtu, ws[1..]);
      assert PerWord(r, mtu, ws)[1..] == PerWord(Step(r, mtu, ws[0]), mtu, ws[1..]);
    }
  }

  // Some word that put a beat on the output is followed by a pause.
  predicate PauseAfterBeat(outs: seq<seq<Beat>>, pauses: seq<nat>)
    requires |outs| == |pauses|
  {
    exists i :: 0 <= i < |outs| && outs[i] != [] && pauses[i] > 0
  }

  lemma {:induction false} StretchLength(outs: seq<seq<Beat>>, pauses: seq<nat>)
    requires |outs| == |pauses|
    ensures |Stretch(outs, pauses)| >= |Concat(outs)|
    ensures |Stretch(outs, pauses)| == |Concat(outs)| <==> !PauseAfterBeat(outs, pauses)
    ensures !PauseAfterBeat(outs, pauses) ==> Stretch(outs, pauses) == Concat(outs)
  {
    if outs != [] {
      StretchLength(outs[1..], pauses[1..]);
      PauseAfterFirst(outs, pauses);
      hide PauseAfterBeat;
      assert Repeat(outs[0], 1 + pauses[0]) == outs[0] + Repeat(outs[0], pauses[0]);
      RepeatLength(outs[0], pauses[0]);
    }
  }

  lemma PauseAfterFirst(outs: seq<seq<Beat>>, pauses: seq<nat>)
    requires |outs| == |pauses| && outs != []
    ensures PauseAfterBeat(outs, pauses) <==> (outs[0] != [] && pauses[0] > 0) || PauseAfterBeat(outs[1..], pauses[1..])
  {
    if PauseAfterBeat(outs[1..], pauses[1..]) {
      var i :| 0 <= i < |outs[1..]| && outs[1..][i] != [] && pauses[1..][i] > 0;
      assert outs[i + 1] != [] && pauses[i + 1] > 0;
    }
    if PauseAfterBeat(outs, pauses) {
      var i :| 0 <= i < |outs| && outs[i] != [] && pauses[i] > 0;
      assert i > 0 ==> outs[1..][i - 1] != [] && pauses[1..][i - 1] > 0;
    }
  }

  // For every sequence of words and pauses, whether the link is active or not, the consumer sees the parser's
  // beats, each once more for every pause clock after it; so it sees exactly the parser's beats if and only if
  // no pause follows a beat.
  lemma PausedOutput(mtu: nat, cs: seq<Clocked>)
    ensures var outs := PerWord(RESET, mtu, WordsOf(cs));
            && Concat(outs) == Flatten(Parse(mtu, WordsOf(cs)))
            && PausedBeats(RESET, mtu, cs) == Stretch(outs, Pauses(cs))
            && (PausedBeats(RESET, mtu, cs) == Concat(outs) <==> !PauseAfterBeat(outs, Pauses(cs)))
  {
    assert Delivered(RESET) == [];
    hide *;
    PausesRepeatBeats(RESET, mtu, cs);
    RepeatLength([], LeadingPauses(cs));
    PerWordIsBeats(RESET, mtu, WordsOf(cs));
    FramerParses(mtu, WordsOf(cs));
    StretchLength(PerWord(RESET, mtu, WordsOf(cs)), Pauses(cs));
  }

  // A start-of-frame and a pause: the consumer sees two starts.
  lemma PauseDoublesStart(mtu: nat)
    ensures var cs := [Word(Control(SOFI3)), Pause];
            && PausedBeats(RESET, mtu, cs) == [Beat(SOFI3, true, false), Beat(SOFI3, true, false)]
            && PauseAfterBeat(PerWord(RESET, mtu, WordsOf(cs)), Pauses(cs))
  {
    var sof := Control(SOFI3);
    assert KindOf(sof).Sof?;
    hide KindOf;
    var cs := [Word(sof), Pause];
    assert cs[1..] == [Pause] && [Pause][1..] == [];
    var r := Step(RESET, mtu, sof);
    assert Delivered(r) == [Beat(SOFI3, true, false)];
    assert PausedBeats(r, mtu, [Pause]) == Delivered(r) + PausedBeats(r, mtu, []);
    assert WordsOf([Pause]) == [] && WordsOf(cs) == [sof];
    assert LeadingPauses([Pause]) == 1;
    assert PerWord(RESET, mtu, [sof])[0] == Delivered(r) && Pauses(cs)[0] == 1;
  }
}
