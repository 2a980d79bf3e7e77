/** Frames from one user of a link to the other: the transmit mux of one port (ip/fc_framer/fc_framer.sv), the line,
    and the receive framer of the other.

    Both ports are active, so each sends its user's word, or ARBff when the user has none.
 */
module FcDelivery {
  import opened FcPrimitives
  import opened FcPort
  import opened FcLink
  import FcFramer

  // ----- The line is a delay -----

  // What a port in AC that is active sends
  function SentWord(u: User): TxWord
  {
    if u.valid then UserWord(u) else StateWord(AC)
  }

  function SentWords(ts: seq<Traffic>): (ws: seq<TxWord>)
    ensures |ws| == |ts|
  {
    seq(|ts|, i requires 0 <= i < |ts| => SentWord(ts[i].a))
  }

  // What the framer of b gets in a run, one word a clock
  function RxWords(l: Link, ts: seq<Traffic>): (ws: seq<FcFramer.Arrival>)
    ensures |ws| == |ts|
    decreases |ts|
  {
    if ts == [] then []
    else
      var m := TrafficRun(l, ts[..|ts| - 1]);
      RxWords(l, ts[..|ts| - 1]) + [FcFramer.Arrival(m.b.Active(), LineHead(m.ab, m.a.tx))]
  }

  // Words that arrive on an active link
  function Arriving(ws: seq<TxWord>): (arrivals: seq<FcFramer.Arrival>)
    ensures |arrivals| == |ws|
  {
    seq(|ws|, i requires 0 <= i < |ws| => FcFramer.Arrival(true, ws[i]))
  }

  ghost predicate AllHarmless(ts: seq<Traffic>)
  {
    forall i :: 0 <= i < |ts| ==> HarmlessUser(ts[i].a) && HarmlessUser(ts[i].b)
  }

  // Both ports are in AC and active, and nothing on the way changes that.
  ghost predicate InService(l: Link)
  {
    Up(l) && l.a.Active() && l.b.Active()
  }

  // The words on their way to b
  function InFlight(l: Link): seq<TxWord>
  {
    l.ab + [l.a.tx]
  }

  lemma StaysInService(l: Link, ts: seq<Traffic>)
    requires InService(l) && AllHarmless(ts)
    ensures InService(TrafficRun(l, ts))
  {
    TrafficKeepsLinkUp(l, ts);
  }

  lemma FlightShifts(l: Link, t: Traffic)
    requires InService(l)
    ensures InFlight(LinkStep(l, t)) == InFlight(l)[1..] + [SentWord(t.a)]
    ensures LineHead(l.ab, l.a.tx) == InFlight(l)[0]
  {
    var t' := LinkStep(l, t);
    assert t'.a.tx == SentWord(t.a);
    hide LinkStep;
    assert t'.ab == LineShift(l.ab, l.a.tx) by { LineOf(l, t); }
    assert LineShift(l.ab, l.a.tx) == InFlight(l)[1..];
  }

  lemma LineOf(l: Link, t: Traffic)
    ensures LinkStep(l, t).ab == LineShift(l.ab, l.a.tx)
  {
  }

  // b receives what was in flight and then what the user of a sends, each word |ab| + 1 clocks after it is offered.
  lemma {:induction false} LineDelays(l: Link, ts: seq<Traffic>)
    requires InService(l) && AllHarmless(ts)
    ensures InFlight(TrafficRun(l, ts)) == (InFlight(l) + SentWords(ts))[|ts|..]
    ensures RxWords(l, ts) == Arriving((InFlight(l) + SentWords(ts))[..|ts|])
    decreases |ts|
  {
    assert InFlight(l) != [];
    if ts == [] {
      hide InFlight;
      assert SentWords(ts) == [] && InFlight(l) + [] == InFlight(l);
      NothingArrives(InFlight(l));
    } else {
      hide *;
      var n := |ts| - 1;
      var front, m := ts[..n], TrafficRun(l, ts[..n]);
      HarmlessFront(ts);
      LineDelays(l, front);
      StaysInService(l, front);
      FlightShifts(m, ts[n]);
      ServiceIsActive(m);
      LastClock(l, ts);
      OneMoreWord(InFlight(l), SentWords(front), SentWord(ts[n].a));
    }
  }

  lemma LastClock(l: Link, ts: seq<Traffic>)
    requires ts != []
    ensures var front, last := ts[..|ts| - 1], ts[|ts| - 1];
            var m := TrafficRun(l, front);
            && TrafficRun(l, ts) == LinkStep(m, last)
            && RxWords(l, ts) == RxWords(l, front) + [FcFramer.Arrival(m.b.Active(), LineHead(m.ab, m.a.tx))]
            && SentWords(ts) == SentWords(front) + [SentWord(last.a)]
  {
    hide LinkStep, LineHead, SentWord;
  }

  lemma NothingArrives(ws: seq<TxWord>)
    ensures Arriving(ws[..0]) == [] && ws[0..] == ws
  {
  }

  lemma HarmlessFront(ts: seq<Traffic>)
    requires ts != [] && AllHarmless(ts)
    ensures AllHarmless(ts[..|ts| - 1])
  {
  }

  lemma ServiceIsActive(l: Link)
    requires InService(l)
    ensures l.b.Active()
  {
  }

  lemma OneMoreWord(flight: seq<TxWord>, sent: seq<TxWord>, w: TxWord)
    requires flight != []
    ensures var n, all := |sent|, flight + (sent + [w]);
            && all[n + 1..] == (flight + sent)[n..][1..] + [w]
            && Arriving(all[..n + 1]) ==
               Arriving((flight + sent)[..n]) + [FcFramer.Arrival(true, (flight + sent)[n..][0])]
  {
    assert flight + (sent + [w]) == flight + sent + [w];
  }

  // ----- What the users send -----

  const STARTS: set<Word32> := {0xBCB5_5555, 0xBCB5_3535, 0xBCB5_5656, 0xBCB5_3636, 0xBCB5_5858}
  const ENDS: set<Word32> :=
    {0xBCB5_7575, 0xBC95_7575, 0xBCB5_F5F5, 0xBC95_F5F5, 0xBCB5_D5D5, 0xBC95_D5D5, 0xBCAA_D5D5, 0xBC8A_D5D5}
  const FILLS: set<Word32> := {0xBC95_B5B5, 0xBC94_FFFF}
  // NOS, OLS, LR and LRR
  const SEQUENCES: set<Word32> := {0xBC55_BF45, 0xBC35_8A55, 0xBC49_BF49, 0xBC35_BF49}

  // A clock without a word, a frame in consecutive clocks, or a control word between frames
  datatype Item = Gap | Frame(sof: Word32, body: seq<Word32>, eof: Word32) | Signal(word: Word32)

  // A frame with its delimiters that is at most the MTU long, or a control word that starts no frame and does not
  // take the link down
  predicate Good(mtu: nat, item: Item)
  {
    match item
    case Gap => true
    case Frame(sof, body, eof) => sof in STARTS && eof in ENDS && 4 * (|body| + 2) <= mtu
    case Signal(w) => w !in STARTS && w !in SEQUENCES
  }

  predicate AllGood(mtu: nat, items: seq<Item>)
  {
    forall i :: 0 <= i < |items| ==> Good(mtu, items[i])
  }

  function Length(item: Item): (n: nat)
    ensures n > 0
  {
    if item.Frame? then 2 + |item.body| else 1
  }

  // What the user offers: start and end of a packet mark the control words.
  predicate Says(us: seq<User>, item: Item)
  {
    && |us| == Length(item)
    && match item
       case Gap => !us[0].valid
       case Frame(sof, body, eof) =>
         && us[0] == User(true, sof, true, false)
         && (forall i :: 0 <= i < |body| ==> us[1 + i] == User(true, body[i], false, false))
         && us[1 + |body|] == User(true, eof, false, true)
       case Signal(w) => us[0].valid && us[0].data == w && (us[0].sop || us[0].eop)
  }

  predicate SaysAll(us: seq<User>, items: seq<Item>)
    decreases |items|
  {
    if items == [] then us == []
    else
      var n := Length(items[0]);
      n <= |us| && Says(us[..n], items[0]) && SaysAll(us[n..], items[1..])
  }

  // What the other user gets: frames beat by beat, and control words other than fill words and stray ends of
  // frames as packets of one word
  function DataBeats(body: seq<Word32>): (bs: seq<FcFramer.Beat>)
    ensures |bs| == |body|
  {
    seq(|body|, i requires 0 <= i < |body| => FcFramer.Beat(body[i], false, false))
  }

  function BeatsOf(item: Item): seq<FcFramer.Beat>
  {
    match item
    case Gap => []
    case Frame(sof, body, eof) =>
      [FcFramer.Beat(sof, true, false)] + DataBeats(body) + [FcFramer.Beat(eof, false, true)]
    case Signal(w) => if w in FILLS || w in ENDS then [] else [FcFramer.Beat(w, true, true)]
  }

  function AllBeats(items: seq<Item>): seq<FcFramer.Beat>
  {
    if items == [] then [] else BeatsOf(items[0]) + AllBeats(items[1..])
  }

  // ----- The words on the line -----

  function DataOf(body: seq<Word32>): (ws: seq<TxWord>)
    ensures |ws| == |body|
  {
    seq(|body|, i requires 0 <= i < |body| => TxWord(0, body[i]))
  }

  function WordsOf(item: Item): (ws: seq<TxWord>)
    ensures |ws| == Length(item)
  {
    match item
    case Gap => [StateWord(AC)]
    case Frame(sof, body, eof) => [TxWord(CONTROL, sof)] + DataOf(body) + [TxWord(CONTROL, eof)]
    case Signal(w) => [TxWord(CONTROL, w)]
  }

  function Words(items: seq<Item>): seq<TxWord>
  {
    if items == [] then [] else WordsOf(items[0]) + Words(items[1..])
  }

  function Sent(us: seq<User>): (ws: seq<TxWord>)
    ensures |ws| == |us|
  {
    seq(|us|, i requires 0 <= i < |us| => SentWord(us[i]))
  }

  lemma SaidIsSent(us: seq<User>, item: Item)
    requires Says(us, item)
    ensures Sent(us) == WordsOf(item)
  {
    hide StateWord;
    if item.Frame? {
      var ws := WordsOf(item);
      forall i | 0 <= i < |us|
        ensures Sent(us)[i] == ws[i]
      {
        assert 0 < i <= |item.body| ==> us[1 + (i - 1)] == User(true, item.body[i - 1], false, false);
      }
    }
  }

  lemma {:induction false} SaidAreSent(us: seq<User>, items: seq<Item>)
    requires SaysAll(us, items)
    ensures Sent(us) == Words(items)
    decreases |items|
  {
    hide Says, WordsOf, SentWord;
    if items != [] {
      var n := Length(items[0]);
      SaidIsSent(us[..n], items[0]);
      SaidAreSent(us[n..], items[1..]);
      assert Sent(us) == Sent(us[..n]) + Sent(us[n..]);
    }
  }

  // ----- The packets of the parser -----

  function PacketsOf(item: Item): seq<FcFramer.Packet>
  {
    match item
    case Gap => []
    case Frame(sof, body, eof) => [FcFramer.Packet([sof] + body + [eof], FcFramer.Closed, 0, 0)]
    case Signal(w) => if w in FILLS || w in ENDS then [] else [FcFramer.Packet([w], FcFramer.Closed, 0, 0)]
  }

  function Packets(items: seq<Item>): seq<FcFramer.Packet>
  {
    if items == [] then [] else PacketsOf(items[0]) + Packets(items[1..])
  }

  lemma {:induction false} BodyParses(mtu: nat, body: seq<Word32>, eof: Word32, rest: seq<TxWord>, length: nat)
    requires eof in ENDS && length + 4 * |body| <= mtu
    ensures FcFramer.Body(mtu, Arriving(DataOf(body) + [TxWord(CONTROL, eof)] + rest), length) ==
            FcFramer.Parsed(FcFramer.Packet(body + [eof], FcFramer.Closed, 0, 0), Arriving(rest))
    decreases |body|
  {
    hide MapPrimitive;
    var ws := DataOf(body) + [TxWord(CONTROL, eof)] + rest;
    if body == [] {
      assert ws[0] == TxWord(CONTROL, eof);
      assert Arriving(ws)[1..] == Arriving(rest);
      EofKind(eof);
    } else {
      BodyParses(mtu, body[1..], eof, rest, length + 4);
      assert ws[0] == TxWord(0, body[0]);
      assert Arriving(ws)[1..] == Arriving(DataOf(body[1..]) + [TxWord(CONTROL, eof)] + rest);
      assert [body[0]] + (body[1..] + [eof]) == body + [eof];
    }
  }

  lemma EofKind(eof: Word32)
    requires eof in ENDS
    ensures FcFramer.KindOf(FcFramer.Arrival(true, TxWord(CONTROL, eof))).Eof?
  {
    DelimiterWords(eof);
    hide MapPrimitive, IsFill, IsSof, IsEof;
  }

  lemma SofKind(sof: Word32)
    requires sof in STARTS
    ensures FcFramer.KindOf(FcFramer.Arrival(true, TxWord(CONTROL, sof))).Sof?
  {
    DelimiterWords(sof);
    hide MapPrimitive, IsFill, IsSof, IsEof;
  }

  lemma SignalKind(w: Word32)
    requires w !in STARTS
    ensures var kind := FcFramer.KindOf(FcFramer.Arrival(true, TxWord(CONTROL, w)));
            && (kind.Fill? <==> w in FILLS) && (kind.Eof? <==> w in ENDS)
            && (kind.Fill? || kind.Eof? || kind.Other?)
  {
    DelimiterWords(w);
    hide MapPrimitive, IsFill, IsSof, IsEof;
  }

  lemma FillKind()
    ensures FcFramer.KindOf(FcFramer.Arrival(true, StateWord(AC))).Fill?
  {
  }

  lemma {:induction false} FrameParses(mtu: nat, f: Item, rest: seq<TxWord>)
    requires f.Frame? && Good(mtu, f)
    ensures FcFramer.Parse(mtu, Arriving(WordsOf(f) + rest)) ==
            [FcFramer.Packet([f.sof] + f.body + [f.eof], FcFramer.Closed, 0, 0)] + FcFramer.Parse(mtu, Arriving(rest))
  {
    hide FcFramer.Body, FcFramer.KindOf, FcFramer.Parse, Arriving, WordsOf, DataOf;
    var arrivals := Arriving(WordsOf(f) + rest);
    FrameWords(f, rest);
    SofKind(f.sof);
    BodyParses(mtu, f.body, f.eof, rest, 8);
    SofParses(mtu, arrivals);
    assert [f.sof] + (f.body + [f.eof]) == [f.sof] + f.body + [f.eof];
  }

  lemma FrameWords(f: Item, rest: seq<TxWord>)
    requires f.Frame?
    ensures var arrivals := Arriving(WordsOf(f) + rest);
            && arrivals != [] && arrivals[0] == FcFramer.Arrival(true, TxWord(CONTROL, f.sof))
            && arrivals[1..] == Arriving(DataOf(f.body) + [TxWord(CONTROL, f.eof)] + rest)
  {
    var sof, tail := TxWord(CONTROL, f.sof), DataOf(f.body) + [TxWord(CONTROL, f.eof)];
    assert WordsOf(f) == [sof] + tail by { Associates([sof], DataOf(f.body), [TxWord(CONTROL, f.eof)]); }
    hide *;
    Associates([sof], tail, rest);
    FirstArrives(sof, tail + rest);
  }

  lemma Associates<T>(a: seq<T>, b: seq<T>, c: seq<T>)
    ensures a + b + c == a + (b + c)
  {
  }

  lemma FirstArrives(w: TxWord, rest: seq<TxWord>)
    ensures var arrivals := Arriving([w] + rest);
            arrivals != [] && arrivals[0] == FcFramer.Arrival(true, w) && arrivals[1..] == Arriving(rest)
  {
  }

  lemma SofParses(mtu: nat, arrivals: seq<FcFramer.Arrival>)
    requires arrivals != [] && FcFramer.KindOf(arrivals[0]).Sof?
    ensures var body := FcFramer.Body(mtu, arrivals[1..], 8);
            FcFramer.Parse(mtu, arrivals) ==
              [body.packet.(words := [arrivals[0].data] + body.packet.words)] + FcFramer.Parse(mtu, body.rest)
  {
    hide FcFramer.KindOf, FcFramer.Body;
  }

  lemma {:induction false} FillParses(mtu: nat, rest: seq<TxWord>)
    ensures FcFramer.Parse(mtu, Arriving([StateWord(AC)] + rest)) == FcFramer.Parse(mtu, Arriving(rest))
  {
    FillKind();
    hide FcFramer.KindOf;
    assert Arriving([StateWord(AC)] + rest)[1..] == Arriving(rest);
  }

  lemma {:induction false} SignalParses(mtu: nat, w: Word32, rest: seq<TxWord>)
    requires w !in STARTS
    ensures FcFramer.Parse(mtu, Arriving([TxWord(CONTROL, w)] + rest)) ==
            PacketsOf(Signal(w)) + FcFramer.Parse(mtu, Arriving(rest))
  {
    SignalKind(w);
    hide FcFramer.KindOf;
    FirstArrives(TxWord(CONTROL, w), rest);
  }

  // The parser finds what was sent.
  lemma {:induction false} ItemsParse(mtu: nat, items: seq<Item>)
    requires AllGood(mtu, items)
    ensures FcFramer.Parse(mtu, Arriving(Words(items))) == Packets(items)
  {
    hide FcFramer.Parse, Good, WordsOf, PacketsOf, Arriving;
    if items == [] {
      EmptyParses(mtu);
    } else {
      ItemsParse(mtu, items[1..]);
      assert Good(mtu, items[0]);
      ItemParses(mtu, items[0], Words(items[1..]));
    }
  }

  lemma ItemParses(mtu: nat, item: Item, rest: seq<TxWord>)
    requires Good(mtu, item)
    ensures FcFramer.Parse(mtu, Arriving(WordsOf(item) + rest)) ==
            PacketsOf(item) + FcFramer.Parse(mtu, Arriving(rest))
  {
    hide FcFramer.Parse, Arriving;
    match item
    case Gap =>
      FillParses(mtu, rest);
    case Frame(_, _, _) =>
      FrameParses(mtu, item, rest);
    case Signal(w) =>
      SignalParses(mtu, w, rest);
  }

  // And the beats of those packets are the ones to be seen.
  lemma {:induction false} FlattenJoins(ps: seq<FcFramer.Packet>, qs: seq<FcFramer.Packet>)
    ensures FcFramer.Flatten(ps + qs) == FcFramer.Flatten(ps) + FcFramer.Flatten(qs)
  {
    hide FcFramer.WordBeats;
    if ps == [] {
      assert ps + qs == qs;
    } else {
      FlattenJoins(ps[1..], qs);
      assert (ps + qs)[1..] == ps[1..] + qs;
      var first := FcFramer.WordBeats(ps[0].words, true, FcFramer.Ends(ps[0].ending));
      Associates(first, FcFramer.Flatten(ps[1..]), FcFramer.Flatten(qs));
    }
  }

  lemma {:induction false} BodyFlattens(body: seq<Word32>, eof: Word32)
    ensures FcFramer.WordBeats(body + [eof], false, true) == DataBeats(body) + [FcFramer.Beat(eof, false, true)]
  {
    if body == [] {
      assert [eof][1..] == [];
    } else {
      BodyFlattens(body[1..], eof);
      assert (body + [eof])[1..] == body[1..] + [eof];
      assert DataBeats(body) == [FcFramer.Beat(body[0], false, false)] + DataBeats(body[1..]);
    }
  }

  lemma OnePacketFlattens(p: FcFramer.Packet)
    ensures FcFramer.Flatten([p]) == FcFramer.WordBeats(p.words, true, FcFramer.Ends(p.ending))
  {
    assert [p][1..] == [];
  }

  lemma {:induction false} ItemFlattens(item: Item)
    ensures FcFramer.Flatten(PacketsOf(item)) == BeatsOf(item)
  {
    match item
    case Gap =>
    case Frame(sof, body, eof) =>
      BodyFlattens(body, eof);
      var words := [sof] + body + [eof];
      assert words[1..] == body + [eof];
      OnePacketFlattens(FcFramer.Packet(words, FcFramer.Closed, 0, 0));
      hide DataBeats;
      assert BeatsOf(item) == [FcFramer.Beat(sof, true, false)] + (DataBeats(body) + [FcFramer.Beat(eof, false, true)]);
    case Signal(w) =>
      OnePacketFlattens(FcFramer.Packet([w], FcFramer.Closed, 0, 0));
      assert [w][1..] == [];
  }

  lemma {:induction false} ItemsFlatten(items: seq<Item>)
    ensures FcFramer.Flatten(Packets(items)) == AllBeats(items)
  {
    hide PacketsOf, BeatsOf;
    if items != [] {
      ItemsFlatten(items[1..]);
      ItemFlattens(items[0]);
      FlattenJoins(PacketsOf(items[0]), Packets(items[1..]));
    }
  }

  lemma EmptyParses(mtu: nat)
    ensures FcFramer.Parse(mtu, Arriving([])) == []
  {
    assert Arriving([]) == [];
  }

  predicate AllFill(ws: seq<TxWord>)
  {
    forall i :: 0 <= i < |ws| ==> ws[i] == StateWord(AC)
  }

  lemma {:induction false} FillsParse(mtu: nat, fill: seq<TxWord>, rest: seq<TxWord>)
    requires AllFill(fill)
    ensures FcFramer.Parse(mtu, Arriving(fill + rest)) == FcFramer.Parse(mtu, Arriving(rest))
  {
    hide FcFramer.Parse;
    if fill == [] {
      assert fill + rest == rest;
    } else {
      FillsParse(mtu, fill[1..], rest);
      FillParses(mtu, fill[1..] + rest);
      assert fill + rest == [StateWord(AC)] + (fill[1..] + rest);
    }
  }

  // ----- Delivery -----

  function Users(ts: seq<Traffic>): (us: seq<User>)
    ensures |us| == |ts|
  {
    seq(|ts|, i requires 0 <= i < |ts| => ts[i].a)
  }

  // The user of a has said these things in time for them to have arrived.
  ghost predicate Sends(l: Link, ts: seq<Traffic>, items: seq<Item>)
  {
    var d := |l.ab| + 1;
    d <= |ts| && SaysAll(Users(ts)[..|ts| - d], items)
  }

  // On a link in service with nothing but fill words on the line, every frame the user of a sends comes out of the
  // framer of b as a packet of the same words, whole, in order, control words between frames as packets of one
  // word, and nothing else, whatever the user of b sends.
  lemma {:induction false} FramesArrive(l: Link, r: FcFramer.Registers, mtu: nat, ts: seq<Traffic>, items: seq<Item>)
    requires InService(l) && AllFill(InFlight(l)) && !r.packetDetect
    requires AllHarmless(ts) && AllGood(mtu, items) && Sends(l, ts, items)
    ensures FcFramer.Beats(r, mtu, RxWords(l, ts)) == AllBeats(items)
  {
    var d, sent := |InFlight(l)|, SentWords(ts);
    LineDelays(l, ts);
    assert (InFlight(l) + sent)[..|ts|] == InFlight(l) + sent[..|ts| - d];
    assert sent[..|ts| - d] == Sent(Users(ts)[..|ts| - d]);
    SaidAreSent(Users(ts)[..|ts| - d], items);
    hide *;
    FcFramer.OutsideRefines(r, mtu, RxWords(l, ts));
    FillsParse(mtu, InFlight(l), Words(items));
    ItemsParse(mtu, items);
    ItemsFlatten(items);
  }

  // ----- From any contents -----

  function Quiets(n: nat): (ts: seq<Traffic>)
    ensures |ts| == n
  {
    seq(n, _ => Traffic(QUIET, QUIET))
  }

  lemma {:induction false} QuietIsTraffic(l: Link, n: nat)
    ensures TrafficRun(l, Quiets(n)) == QuietRun(l, n)
    decreases n
  {
    hide LinkStep;
    if n > 0 {
      QuietIsTraffic(l, n - 1);
      assert Quiets(n)[..n - 1] == Quiets(n - 1);
    }
  }

  lemma QuietIsHarmless(n: nat)
    ensures AllHarmless(Quiets(n))
  {
  }

  // The registers of a framer after some words
  function FramerRun(r: FcFramer.Registers, mtu: nat, ws: seq<FcFramer.Arrival>): FcFramer.Registers
    decreases |ws|
  {
    if ws == [] then r else FcFramer.Step(FramerRun(r, mtu, ws[..|ws| - 1]), mtu, ws[|ws| - 1])
  }

  lemma {:induction false} LineLength(l: Link, n: nat)
    ensures |QuietRun(l, n).ab| == |l.ab|
  {
    hide PortStep;
    if n > 0 {
      LineLength(l, n - 1);
    }
  }

  lemma ComesIntoService(l: Link, n: nat)
    requires l.a.holdOff <= HOLD_OFF && l.b.holdOff <= HOLD_OFF
    requires n >= Bound(|l.ab|, |l.ba|) + HOLD_OFF
    ensures InService(QuietRun(l, n))
  {
    LinkBecomesActive(l, n);
    LinkSettles(l, n);
    hide QuietRun;
    var m := QuietRun(l, n);
    QueueAtTop(m.a, m.ab);
    QueueAtTop(m.b, m.ba);
  }

  // As many quiet clocks as there are words in flight leave only fill words there.
  lemma LineFills(l: Link, n: nat)
    requires InService(l) && n >= |InFlight(l)|
    ensures AllFill(InFlight(QuietRun(l, n)))
  {
    QuietIsHarmless(n);
    LineDelays(l, Quiets(n));
    QuietIsTraffic(l, n);
  }

  // The same from any states of the ports, any contents of their registers and of the line, and any registers of
  // the framer of b, once the bound has passed.
  lemma {:induction false} LinkDelivers(l: Link, r: FcFramer.Registers, mtu: nat, n: nat, ts: seq<Traffic>,
                                        items: seq<Item>)
    requires l.a.holdOff <= HOLD_OFF && l.b.holdOff <= HOLD_OFF
    requires n >= Bound(|l.ab|, |l.ba|) + HOLD_OFF + |l.ab| + 2
    requires AllHarmless(ts) && AllGood(mtu, items) && Sends(QuietRun(l, n), ts, items)
    ensures var r' := FramerRun(r, mtu, RxWords(l, Quiets(n)));
            FcFramer.Beats(r', mtu, RxWords(QuietRun(l, n), ts)) == AllBeats(items)
  {
    hide InService, AllFill, QuietRun, AllHarmless, AllGood, Sends, FcFramer.Beats, AllBeats;
    ServiceAfter(l, n - 1);
    ServiceAfter(l, n);
    FramerOutside(l, r, mtu, n);
    FramesArrive(QuietRun(l, n), FramerRun(r, mtu, RxWords(l, Quiets(n))), mtu, ts, items);
  }

  lemma ServiceAfter(l: Link, n: nat)
    requires l.a.holdOff <= HOLD_OFF && l.b.holdOff <= HOLD_OFF
    requires n >= Bound(|l.ab|, |l.ba|) + HOLD_OFF + |l.ab| + 1
    ensures InService(QuietRun(l, n)) && AllFill(InFlight(QuietRun(l, n)))
  {
    var up := n - (|l.ab| + 1);
    hide InService, AllFill, QuietRun, Bound;
    ComesIntoService(l, up);
    ComesIntoService(l, n);
    LineLength(l, up);
    LineFills(QuietRun(l, up), |l.ab| + 1);
    QuietRunAdds(l, up, |l.ab| + 1);
  }

  // The last quiet clock brings the framer a fill word on an active link, which ends whatever it was in.
  lemma FramerOutside(l: Link, r: FcFramer.Registers, mtu: nat, n: nat)
    requires n > 0 && InService(QuietRun(l, n - 1)) && AllFill(InFlight(QuietRun(l, n - 1)))
    ensures !FramerRun(r, mtu, RxWords(l, Quiets(n))).packetDetect
  {
    hide QuietRun, FcFramer.KindOf, FcFramer.Step, RxWords;
    var ws := RxWords(l, Quiets(n));
    LastWord(l, n);
    FillKind();
    FillEnds(FramerRun(r, mtu, ws[..n - 1]), mtu, ws[n - 1]);
  }

  lemma FillEnds(r: FcFramer.Registers, mtu: nat, w: FcFramer.Arrival)
    requires FcFramer.KindOf(w).Fill?
    ensures !FcFramer.Step(r, mtu, w).packetDetect
  {
  }

  lemma LastWord(l: Link, n: nat)
    requires n > 0 && InService(QuietRun(l, n - 1)) && AllFill(InFlight(QuietRun(l, n - 1)))
    ensures RxWords(l, Quiets(n))[n - 1] == FcFramer.Arrival(true, StateWord(AC))
  {
    hide QuietRun, TrafficRun, LineHead, InService, LinkStep, SentWord, StateWord;
    var m := QuietRun(l, n - 1);
    assert Quiets(n)[..n - 1] == Quiets(n - 1);
    QuietIsTraffic(l, n - 1);
    FlightShifts(m, Traffic(QUIET, QUIET));
    ServiceIsActive(m);
  }

  // ----- The other direction -----

  function Mirror(l: Link): Link
  {
    Link(l.b, l.a, l.ba, l.ab)
  }

  function MirrorAll(ts: seq<Traffic>): (ms: seq<Traffic>)
    ensures |ms| == |ts|
  {
    seq(|ts|, i requires 0 <= i < |ts| => Traffic(ts[i].b, ts[i].a))
  }

  // Seen from the other end a link is a link, so what holds from a to b holds from b to a.
  lemma {:induction false} MirrorRuns(l: Link, ts: seq<Traffic>)
    ensures Mirror(TrafficRun(l, ts)) == TrafficRun(Mirror(l), MirrorAll(ts))
    decreases |ts|
  {
    hide PortStep;
    if ts != [] {
      MirrorRuns(l, ts[..|ts| - 1]);
      assert MirrorAll(ts)[..|ts| - 1] == MirrorAll(ts[..|ts| - 1]);
    }
  }
}
