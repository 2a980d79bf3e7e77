/** Byte order and word alignment around the transceiver (ip/fc_xcvr/fc_8g_xcvr.sv).

    Words leave most significant character first (section 5.2.7.1 of FC-FS-5); the transceiver sends its
    least significant byte first, and receives groups of four characters with an arbitrary phase.  The
    line is a stream of characters, whatever came before the first transmitted word included.
 */
module Xcvr {
  import opened Bits
  import opened FcPrimitives

  type Byte = b: nat | b < 256

  datatype Symbol = Symbol(data: Byte, k: bool)

  // The four byte lanes of a word: s0 is bits 7 to 0 and bit 0 of the control nibble.
  datatype Lanes = Lanes(s0: Symbol, s1: Symbol, s2: Symbol, s3: Symbol)

  // K28.5, the only character that the pattern detector reports
  const COMMA := Symbol(0xBC, true)

  function ToLanes(w: TxWord): Lanes
  {
    Lanes(Symbol(w.data % 256, w.datak % 2 == 1), Symbol(w.data / 256 % 256, w.datak / 2 % 2 == 1),
          Symbol(w.data / 256 / 256 % 256, w.datak / 4 % 2 == 1),
          Symbol(w.data / 256 / 256 / 256 % 256, w.datak / 8 % 2 == 1))
  }

  function Flag(b: bool): nat
  {
    if b then 1 else 0
  }

  function ToWord(l: Lanes): TxWord
  {
    BytesOf(l.s3.data, l.s2.data, l.s1.data, l.s0.data);
    TxWord(8 * Flag(l.s3.k) + 4 * Flag(l.s2.k) + 2 * Flag(l.s1.k) + Flag(l.s0.k),
           FromBytes(l.s3.data, l.s2.data, l.s1.data, l.s0.data))
  }

  lemma {:induction false} WordOfLanes(w: TxWord)
    ensures ToWord(ToLanes(w)) == w
  {
    WordOf(w.data);
    hide FromBytes;
  }

  // Both byte-order conversions
  function Reverse(l: Lanes): (r: Lanes)
    ensures r.s0 == l.s3 && r.s1 == l.s2 && r.s2 == l.s1 && r.s3 == l.s0
  {
    Lanes(l.s3, l.s2, l.s1, l.s0)
  }

  // The characters of a word in the order in which they leave: the most significant first, each with its bit of
  // the control nibble
  function Character(w: TxWord, k: nat): Symbol
  {
    if k == 0 then Symbol(w.data / 0x100_0000 % 0x100, w.datak / 8 % 2 == 1)
    else if k == 1 then Symbol(w.data / 0x1_0000 % 0x100, w.datak / 4 % 2 == 1)
    else if k == 2 then Symbol(w.data / 0x100 % 0x100, w.datak / 2 % 2 == 1)
    else Symbol(w.data % 0x100, w.datak % 2 == 1)
  }

  function Spelled(w: TxWord): Lanes
  {
    Lanes(Character(w, 0), Character(w, 1), Character(w, 2), Character(w, 3))
  }

  lemma {:induction false} ReversedIsSpelled(w: TxWord)
    ensures Reverse(ToLanes(w)) == Spelled(w)
    ensures Reverse(Spelled(w)) == ToLanes(w)
  {
  }

  // ----- Transmitting -----

  class Transmitter {
    var leData: Lanes

    constructor ()
    {
      leData := ToLanes(TxWord(0, 0));
    }

    // The stream must always have a word; NOS kills the link when it does not.
    method Clock(valid: bool, w: TxWord)
      modifies this
      ensures leData == Spelled(if valid then w else TxWord(8, 0xBC55_BF45))
    {
      ReversedIsSpelled(if valid then w else TxWord(CONTROL, NOS));
      var be := ToLanes(if valid then w else TxWord(CONTROL, NOS));
      leData := Lanes(be.s3, be.s2, be.s1, be.s0);
    }
  }

  // ----- Receiving -----

  datatype Rx = Rx(rawR: Lanes, saved: nat, le: Lanes, be: Lanes, r1: bool, r2: bool, aligned: bool)

  predicate OneHot(p: nat)
  {
    p == 1 || p == 2 || p == 4 || p == 8
  }

  // The word that starts at the latched lane of the previous group
  function Align(saved: nat, raw: Lanes, rawR: Lanes, le: Lanes): Lanes
  {
    if saved == 8 then Lanes(rawR.s3, raw.s0, raw.s1, raw.s2)
    else if saved == 4 then Lanes(rawR.s2, rawR.s3, raw.s0, raw.s1)
    else if saved == 2 then Lanes(rawR.s1, rawR.s2, rawR.s3, raw.s0)
    else if saved == 1 then rawR
    else le
  }

  function RxStep(s: Rx, raw: Lanes, pattern: nat, sync: bool): Rx
  {
    Rx(raw, if sync && OneHot(pattern) then pattern else s.saved, Align(s.saved, raw, s.rawR, s.le), Reverse(s.le),
       sync && OneHot(s.saved), s.r1, s.r2)
  }

  class Receiver {
    var rawR: Lanes
    var savedPatternDetect: nat
    var leData: Lanes
    var beData: Lanes
    var isAlignedR1: bool
    var isAlignedR2: bool
    var isAligned: bool

    function View(): Rx
      reads this
    {
      Rx(rawR, savedPatternDetect, leData, beData, isAlignedR1, isAlignedR2, isAligned)
    }

    constructor ()
      ensures savedPatternDetect == 0
    {
      var none := Lanes(Symbol(0, false), Symbol(0, false), Symbol(0, false), Symbol(0, false));
      savedPatternDetect := 0;
      rawR, leData, beData := none, none, none;
      isAlignedR1, isAlignedR2, isAligned := false, false, false;
    }

    // Registers take their values in the order in which nothing is read after it is written.
    method Clock(raw: Lanes, pattern: nat, sync: bool)
      modifies this
      ensures View() == RxStep(old(View()), raw, pattern, sync)
    {
      beData := Lanes(leData.s3, leData.s2, leData.s1, leData.s0);
      if savedPatternDetect == 8 {
        leData := Lanes(rawR.s3, raw.s0, raw.s1, raw.s2);
      } else if savedPatternDetect == 4 {
        leData := Lanes(rawR.s2, rawR.s3, raw.s0, raw.s1);
      } else if savedPatternDetect == 2 {
        leData := Lanes(rawR.s1, rawR.s2, rawR.s3, raw.s0);
      } else if savedPatternDetect == 1 {
        leData := rawR;
      }
      rawR := raw;
      isAligned := isAlignedR2;
      isAlignedR2 := isAlignedR1;
      isAlignedR1 := sync && OneHot(savedPatternDetect);
      if sync && OneHot(pattern) {
        savedPatternDetect := pattern;
      }
    }
  }

  // ----- The line -----

  // The characters on the line, and the clocks at which every lane is synchronised
  datatype Line = Line(symbols: nat -> Symbol, sync: nat -> bool)

  // Four characters of the line
  function WordFrom(line: Line, i: nat): Lanes
  {
    Lanes(line.symbols(i), line.symbols(i + 1), line.symbols(i + 2), line.symbols(i + 3))
  }

  // The detector's nibble: the lanes that hold a comma
  function Pattern(l: Lanes): nat
  {
    Flag(l.s0 == COMMA) + 2 * Flag(l.s1 == COMMA) + 4 * Flag(l.s2 == COMMA) + 8 * Flag(l.s3 == COMMA)
  }

  // The receiver after n clocks
  function At(s: Rx, line: Line, n: nat): Rx
  {
    if n == 0 then s
    else RxStep(At(s, line, n - 1), WordFrom(line, 4 * (n - 1)), Pattern(WordFrom(line, 4 * (n - 1))), line.sync(n - 1))
  }

  // After `lead` other characters, the line carries the words as the transmitter sends them.
  ghost predicate Carries(line: Line, lead: nat, tx: nat -> TxWord)
  {
    forall j: nat {:trigger tx(j)} :: WordFrom(line, lead + 4 * j) == Spelled(tx(j))
  }

  // Only the first character of a word is ever a control character, as in every data word and ordered set.
  ghost predicate Framed(tx: nat -> TxWord)
  {
    forall j: nat :: tx(j).datak == 0 || tx(j).datak == CONTROL
  }

  // From character i on, nothing before the first word is a comma.
  ghost predicate Clean(line: Line, lead: nat, i: nat)
  {
    forall k: nat :: i <= k < lead ==> line.symbols(k) != COMMA
  }

  function Mask(lead: nat): (m: nat)
    ensures OneHot(m)
  {
    match lead % 4
    case 0 => 1
    case 1 => 2
    case 2 => 4
    case _ => 8
  }

  // The lane at which a latched pattern makes a word start
  function Lane(saved: nat): nat
  {
    if saved == 8 then 3 else if saved == 4 then 2 else if saved == 2 then 1 else 0
  }

  // A comma on the line is the first character of a transmitted word.
  lemma {:induction false} CommaLeads(line: Line, lead: nat, tx: nat -> TxWord, i: nat)
    requires Carries(line, lead, tx) && Framed(tx) && line.symbols(i) == COMMA && i >= lead
    ensures (i - lead) % 4 == 0
  {
    var j := (i - lead) / 4;
    assert WordFrom(line, lead + 4 * j) == Spelled(tx(j));
    assert i == lead + 4 * j + (i - lead) % 4;
  }

  lemma {:induction false} CommaLane(line: Line, lead: nat, tx: nat -> TxWord, n: nat, k: nat)
    requires Carries(line, lead, tx) && Framed(tx) && Clean(line, lead, 4 * n) && k < 4
    ensures line.symbols(4 * n + k) == COMMA ==> k == lead % 4 && 4 * n + k >= lead
  {
    if line.symbols(4 * n + k) == COMMA {
      CommaLeads(line, lead, tx, 4 * n + k);
    }
  }

  // A group of four characters without a stray comma has at most one comma, in the lane of the phase.
  lemma {:induction false} PatternIs(line: Line, lead: nat, tx: nat -> TxWord, n: nat)
    requires Carries(line, lead, tx) && Framed(tx) && Clean(line, lead, 4 * n)
    ensures Pattern(WordFrom(line, 4 * n)) == if line.symbols(4 * n + lead % 4) == COMMA then Mask(lead) else 0
    ensures line.symbols(4 * n + lead % 4) == COMMA ==> n >= lead / 4
  {
    CommaLane(line, lead, tx, n, 0);
    CommaLane(line, lead, tx, n, 1);
    CommaLane(line, lead, tx, n, 2);
    CommaLane(line, lead, tx, n, 3);
    hide Carries, Framed, Clean;
  }

  // Group i has a comma in the lane of the phase, and the receiver is synchronised at that clock.
  predicate SyncedComma(line: Line, lead: nat, i: nat)
  {
    line.sync(i) && line.symbols(4 * i + lead % 4) == COMMA
  }

  ghost predicate CommaBetween(line: Line, lead: nat, m: nat, n: nat)
  {
    exists i: nat :: m <= i < n && SyncedComma(line, lead, i)
  }

  // Whatever the latch held, from the last stray comma on it keeps that until the first synchronised comma
  // of a transmitted word, and holds the phase of the transmitted words ever after.
  lemma {:induction false} LatchIs(s: Rx, line: Line, lead: nat, tx: nat -> TxWord, m: nat, n: nat)
    requires Carries(line, lead, tx) && Framed(tx) && Clean(line, lead, 4 * m) && m <= n
    ensures At(s, line, n).saved == if CommaBetween(line, lead, m, n) then Mask(lead) else At(s, line, m).saved
  {
    hide Carries, Framed, Pattern, Align, Reverse, Mask, WordFrom;
    if m < n {
      LatchIs(s, line, lead, tx, m, n - 1);
      PatternIs(line, lead, tx, n - 1);
      assert CommaBetween(line, lead, m, n) <==> CommaBetween(line, lead, m, n - 1) || SyncedComma(line, lead, n - 1);
    }
  }

  // The receiver shows the four characters from the latched lane on.
  lemma {:induction false} AlignsAt(s: Rx, line: Line, n: nat)
    requires n >= 2 && OneHot(At(s, line, n - 1).saved)
    ensures At(s, line, n).le == WordFrom(line, 4 * (n - 2) + Lane(At(s, line, n - 1).saved))
  {
    hide Pattern;
    assert At(s, line, n - 1).rawR == WordFrom(line, 4 * (n - 2));
  }

  lemma {:induction false} CarriedAt(line: Line, lead: nat, tx: nat -> TxWord, n: nat)
    requires Carries(line, lead, tx) && n >= lead / 4
    ensures Reverse(WordFrom(line, 4 * n + lead % 4)) == ToLanes(tx(n - lead / 4))
  {
    var j := n - lead / 4;
    ReversedIsSpelled(tx(j));
    assert WordFrom(line, lead + 4 * j) == Spelled(tx(j));
    assert 4 * n + lead % 4 == lead + 4 * j;
  }

  lemma {:induction false} ShowsAligned(s: Rx, line: Line, n: nat)
    requires n >= 1
    ensures At(s, line, n).be == Reverse(At(s, line, n - 1).le)
  {
    hide Reverse, Align, Pattern;
  }

  lemma {:induction false} LanesOfWord(l: Lanes)
    ensures ToLanes(ToWord(l)) == l
  {
    BytesOf(l.s3.data, l.s2.data, l.s1.data, l.s0.data);
    hide FromBytes;
  }

  lemma {:induction false} ShowsLatched(s: Rx, line: Line, n: nat)
    requires n >= 3 && OneHot(At(s, line, n - 2).saved)
    ensures At(s, line, n).be == Reverse(WordFrom(line, 4 * (n - 3) + Lane(At(s, line, n - 2).saved)))
  {
    hide *;
    AlignsAt(s, line, n - 1);
    ShowsAligned(s, line, n);
  }

  // The latch holds the phase of the words, or the four characters of group i that it puts together happen to
  // be the same.
  predicate InPhase(line: Line, lead: nat, saved: nat, i: nat)
  {
    saved == Mask(lead) || WordFrom(line, 4 * i + Lane(saved)) == WordFrom(line, 4 * i + lead % 4)
  }

  lemma {:induction false} InPhaseIs(line: Line, lead: nat, saved: nat, i: nat)
    requires OneHot(saved)
    ensures InPhase(line, lead, saved, i) <==>
            Reverse(WordFrom(line, 4 * i + Lane(saved))) == Reverse(WordFrom(line, 4 * i + lead % 4))
  {
    assert saved == Mask(lead) ==> Lane(saved) == lead % 4;
    ReverseLosesNothing(WordFrom(line, 4 * i + Lane(saved)), WordFrom(line, 4 * i + lead % 4));
    hide Reverse, WordFrom;
  }

  // With any phase latched, what the receiver shows is the transmitted word, three clocks and the lead of the
  // line later, if and only if the latch is in phase.
  lemma {:induction false} ShowsWord(s: Rx, line: Line, lead: nat, tx: nat -> TxWord, n: nat)
    requires Carries(line, lead, tx) && n >= lead / 4 + 3 && OneHot(At(s, line, n - 2).saved)
    ensures ToWord(At(s, line, n).be) == tx(n - 3 - lead / 4) <==>
            InPhase(line, lead, At(s, line, n - 2).saved, n - 3)
  {
    hide *;
    CarriedAt(line, lead, tx, n - 3);
    ShowsLatched(s, line, n);
    WordOfLanes(tx(n - 3 - lead / 4));
    LanesOfWord(At(s, line, n).be);
    InPhaseIs(line, lead, At(s, line, n - 2).saved, n - 3);
  }

  lemma {:induction false} MaskInPhase(line: Line, lead: nat, i: nat)
    ensures InPhase(line, lead, Mask(lead), i)
  {
  }

  lemma {:induction false} ReverseLosesNothing(a: Lanes, b: Lanes)
    ensures Reverse(a) == Reverse(b) <==> a == b
  {
  }

  // The alignment flag is three clocks old.
  lemma {:induction false} AlignedIs(s: Rx, line: Line, n: nat)
    requires n >= 3
    ensures At(s, line, n).aligned == (line.sync(n - 3) && OneHot(At(s, line, n - 3).saved))
  {
    hide Pattern, Align, Reverse;
    assert At(s, line, n - 2).r1 == (line.sync(n - 3) && OneHot(At(s, line, n - 3).saved));
    assert At(s, line, n - 1).r2 == At(s, line, n - 2).r1;
  }

  // A latched phase may change but is never cleared.
  lemma {:induction false} OneHotStays(s: Rx, line: Line, n: nat)
    requires OneHot(At(s, line, n).saved)
    ensures OneHot(At(s, line, n + 1).saved)
  {
    hide Pattern, Align, Reverse;
  }

  // From any state of the receiver and any line before the words: a flagged word is the transmitted one if and
  // only if the latch held the phase of the words two clocks before, or the characters coincide.
  lemma {:induction false} FlaggedWordIs(s: Rx, line: Line, lead: nat, tx: nat -> TxWord, n: nat)
    requires Carries(line, lead, tx) && n >= lead / 4 + 3 && At(s, line, n).aligned
    ensures ToWord(At(s, line, n).be) == tx(n - 3 - lead / 4) <==>
            InPhase(line, lead, At(s, line, n - 2).saved, n - 3)
  {
    hide *;
    AlignedIs(s, line, n);
    OneHotStays(s, line, n - 3);
    ShowsWord(s, line, lead, tx, n);
  }

  // From any state of the receiver: once the latch holds the phase of the words it keeps it.
  lemma {:induction false} PhaseStays(s: Rx, line: Line, lead: nat, tx: nat -> TxWord, m: nat, n: nat)
    requires Carries(line, lead, tx) && Framed(tx)
    requires 4 * m >= lead && At(s, line, m).saved == Mask(lead) && n >= m
    ensures At(s, line, n).saved == Mask(lead)
  {
    assert Clean(line, lead, 4 * m);
    hide *;
    LatchIs(s, line, lead, tx, m, n);
  }

  // And every later word is the transmitted one, for every stream and phase, synchronised or not.
  lemma {:induction false} LatchedPhaseStays(s: Rx, line: Line, lead: nat, tx: nat -> TxWord, m: nat, n: nat)
    requires Carries(line, lead, tx) && Framed(tx)
    requires 4 * m >= lead && At(s, line, m).saved == Mask(lead)
    requires n >= m + 2 && n >= lead / 4 + 3
    ensures ToWord(At(s, line, n).be) == tx(n - 3 - lead / 4)
  {
    hide *;
    PhaseStays(s, line, lead, tx, m, n - 2);
    MaskInPhase(line, lead, n - 3);
    ShowsWord(s, line, lead, tx, n);
  }

  // The first comma that a synchronised receiver sees of the words latches their phase, if no stray comma is
  // in the same group of four.
  lemma {:induction false} CommaLatches(s: Rx, line: Line, lead: nat, tx: nat -> TxWord, j: nat)
    requires Carries(line, lead, tx) && Framed(tx)
    requires Character(tx(j), 0) == COMMA && line.sync(lead / 4 + j) && Clean(line, lead, 4 * (lead / 4 + j))
    ensures SyncedComma(line, lead, lead / 4 + j)
    ensures At(s, line, lead / 4 + j + 1).saved == Mask(lead)
  {
    var m := lead / 4 + j;
    assert WordFrom(line, lead + 4 * j) == Spelled(tx(j));
    assert 4 * m + lead % 4 == lead + 4 * j;
    hide Carries, Framed, Clean, Pattern, Spelled, Character, Align, Mask;
    PatternIs(line, lead, tx, m);
  }

  // From any state: from the first word on that starts with a comma and is received in synchronisation, every
  // word is the transmitted one.
  lemma {:induction false} WordsAfterComma(s: Rx, line: Line, lead: nat, tx: nat -> TxWord, j: nat, n: nat)
    requires Carries(line, lead, tx) && Framed(tx)
    requires Character(tx(j), 0) == COMMA && line.sync(lead / 4 + j) && Clean(line, lead, 4 * (lead / 4 + j))
    requires n >= lead / 4 + j + 3
    ensures ToWord(At(s, line, n).be) == tx(n - 3 - lead / 4)
  {
    hide *;
    var m := lead / 4 + j + 1;
    assert 4 * m >= lead;
    CommaLatches(s, line, lead, tx, j);
    LatchedPhaseStays(s, line, lead, tx, m, n);
  }

  // And from the next word on the flag is up exactly when the receiver was synchronised three clocks before.
  lemma {:induction false} AlignedForGood(s: Rx, line: Line, lead: nat, tx: nat -> TxWord, j: nat, n: nat)
    requires Carries(line, lead, tx) && Framed(tx)
    requires Character(tx(j), 0) == COMMA && line.sync(lead / 4 + j) && Clean(line, lead, 4 * (lead / 4 + j))
    requires n > lead / 4 + j + 3
    ensures At(s, line, n).aligned == line.sync(n - 3)
  {
    hide *;
    var m := lead / 4 + j + 1;
    assert 4 * m >= lead;
    CommaLatches(s, line, lead, tx, j);
    PhaseStays(s, line, lead, tx, m, n - 3);
    FlagOfPhase(s, line, lead, n);
  }

  lemma {:induction false} FlagOfPhase(s: Rx, line: Line, lead: nat, n: nat)
    requires n >= 3 && At(s, line, n - 3).saved == Mask(lead)
    ensures At(s, line, n).aligned == line.sync(n - 3)
  {
    hide *;
    AlignedIs(s, line, n);
  }

  lemma {:induction false} AtFirst(s: Rx, line: Line, lead: nat, n: nat)
    requires Clean(line, lead, 0)
    ensures At(s, line, 0) == s && Clean(line, lead, 4 * n)
  {
  }

  lemma PhaseIsOneHot(lead: nat)
    ensures !OneHot(0) && OneHot(2) && OneHot(Mask(lead))
  {
  }

  lemma {:induction false} CommaStays(line: Line, lead: nat, tx: nat -> TxWord, n: nat)
    requires Carries(line, lead, tx) && Framed(tx) && Clean(line, lead, 0) && CommaBetween(line, lead, 0, n)
    ensures CommaBetween(line, lead, 0, n + 1) && n > lead / 4
  {
    hide Carries, Framed, Clean, SyncedComma;
    var i: nat :| i < n && SyncedComma(line, lead, i);
    LateComma(line, lead, tx, i);
  }

  // A flag of a receiver that starts with nothing latched goes back to a comma of the words.
  lemma {:induction false} FlagGoesBack(s: Rx, line: Line, lead: nat, tx: nat -> TxWord, n: nat)
    requires Carries(line, lead, tx) && Framed(tx) && Clean(line, lead, 0) && s.saved == 0
    requires n >= 3 && At(s, line, n).aligned
    ensures n > lead / 4 + 3 && At(s, line, n - 2).saved == Mask(lead)
  {
    hide *;
    AtFirst(s, line, lead, 0);
    PhaseIsOneHot(lead);
    AlignedIs(s, line, n);
    LatchIs(s, line, lead, tx, 0, n - 3);
    LatchIs(s, line, lead, tx, 0, n - 2);
    CommaStays(line, lead, tx, n - 3);
  }

  // A receiver that starts with nothing latched, on a line without a stray comma, never flags a wrong word.
  lemma {:induction false} AlignedWordIsTransmitted(s: Rx, line: Line, lead: nat, tx: nat -> TxWord, n: nat)
    requires Carries(line, lead, tx) && Framed(tx) && Clean(line, lead, 0) && s.saved == 0
    requires n >= 3 && At(s, line, n).aligned
    ensures n > lead / 4 + 3 && ToWord(At(s, line, n).be) == tx(n - 3 - lead / 4)
  {
    hide *;
    FlagGoesBack(s, line, lead, tx, n);
    MaskInPhase(line, lead, n - 3);
    ShowsWord(s, line, lead, tx, n);
  }

  lemma {:induction false} LateComma(line: Line, lead: nat, tx: nat -> TxWord, i: nat)
    requires Carries(line, lead, tx) && Framed(tx) && Clean(line, lead, 0) && SyncedComma(line, lead, i)
    ensures i >= lead / 4
  {
    hide Carries, Framed, Pattern, Mask;
    assert Clean(line, lead, 4 * i);
    PatternIs(line, lead, tx, i);
  }

  // One of the first j words starts with a comma and is received in synchronisation.
  ghost predicate CommaBefore(line: Line, lead: nat, tx: nat -> TxWord, j: nat)
  {
    exists i: nat :: i < j && Character(tx(i), 0) == COMMA && line.sync(lead / 4 + i)
  }

  lemma {:induction false} FlaggedBefore(s: Rx, line: Line, lead: nat, tx: nat -> TxWord, j: nat)
    requires Carries(line, lead, tx) && Framed(tx) && Clean(line, lead, 0) && s.saved == 0
    requires line.sync(lead / 4 + j)
    ensures At(s, line, lead / 4 + j + 3).aligned <==> CommaBefore(line, lead, tx, j)
  {
    hide *;
    AtFirst(s, line, lead, 0);
    PhaseIsOneHot(lead);
    AlignedIs(s, line, lead / 4 + j + 3);
    LatchIs(s, line, lead, tx, 0, lead / 4 + j);
    EarlierCommas(line, lead, tx, j);
  }

  // Such a receiver flags the word of a latching comma if and only if an earlier comma has latched already:
  // the flag is one clock too late for the first one.
  lemma {:induction false} FirstCommaUnflagged(s: Rx, line: Line, lead: nat, tx: nat -> TxWord, j: nat)
    requires Carries(line, lead, tx) && Framed(tx) && Clean(line, lead, 0) && s.saved == 0
    requires Character(tx(j), 0) == COMMA && line.sync(lead / 4 + j)
    ensures ToWord(At(s, line, lead / 4 + j + 3).be) == tx(j)
    ensures At(s, line, lead / 4 + j + 3).aligned <==> CommaBefore(line, lead, tx, j)
  {
    hide *;
    AtFirst(s, line, lead, lead / 4 + j);
    WordsAfterComma(s, line, lead, tx, j, lead / 4 + j + 3);
    FlaggedBefore(s, line, lead, tx, j);
  }

  lemma {:induction false} EarlierCommas(line: Line, lead: nat, tx: nat -> TxWord, j: nat)
    requires Carries(line, lead, tx) && Framed(tx) && Clean(line, lead, 0)
    ensures CommaBetween(line, lead, 0, lead / 4 + j) <==> CommaBefore(line, lead, tx, j)
  {
    hide Clean, Carries, Framed, Character, WordFrom, SyncedComma;
    if i: nat :| i < j && Character(tx(i), 0) == COMMA && line.sync(lead / 4 + i) {
      SyncedCommaIs(line, lead, tx, i);
    }
    if i: nat :| i < lead / 4 + j && SyncedComma(line, lead, i) {
      LateComma(line, lead, tx, i);
      SyncedCommaIs(line, lead, tx, i - lead / 4);
    }
  }

  lemma {:induction false} SyncedCommaIs(line: Line, lead: nat, tx: nat -> TxWord, j: nat)
    requires Carries(line, lead, tx)
    ensures SyncedComma(line, lead, lead / 4 + j) <==> Character(tx(j), 0) == COMMA && line.sync(lead / 4 + j)
  {
    assert WordFrom(line, lead + 4 * j) == Spelled(tx(j));
    assert 4 * (lead / 4 + j) + lead % 4 == lead + 4 * j;
  }

  // ----- Two lines -----

  // The same word over and over, from the first character on, always synchronised
  function Repeated(w: TxWord): Line
  {
    Line(i => var l := Spelled(w); match i % 4 case 0 => l.s0 case 1 => l.s1 case 2 => l.s2 case _ => l.s3,
         i => true)
  }

  lemma {:induction false} RepeatedCarries(w: TxWord)
    ensures Carries(Repeated(w), 0, _ => w)
  {
    forall j: nat
      ensures WordFrom(Repeated(w), 0 + 4 * j) == Spelled(w)
    {
      hide *;
      RepeatedAt(w, j);
    }
  }

  lemma {:induction false} RepeatedAt(w: TxWord, j: nat)
    ensures WordFrom(Repeated(w), 4 * j) == Spelled(w)
  {
    hide Character;
    assert 4 * j % 4 == 0 && (4 * j + 1) % 4 == 1 && (4 * j + 2) % 4 == 2 && (4 * j + 3) % 4 == 3;
  }

  const DATA := TxWord(0, 0x0102_0304)

  lemma {:induction false} NoCommas(n: nat)
    ensures Clean(Repeated(DATA), 0, 0) && Framed(_ => DATA) && Repeated(DATA).sync(n)
    ensures !CommaBetween(Repeated(DATA), 0, 0, n)
  {
  }

  // A latch left at another phase is never cleared: on a stream of data words every word is flagged, and none
  // is the transmitted one.
  lemma {:induction false} StaleLatch(s: Rx, n: nat)
    requires s.saved == 2 && n >= 3
    ensures Carries(Repeated(DATA), 0, _ => DATA) && Framed(_ => DATA)
    ensures At(s, Repeated(DATA), n).aligned && ToWord(At(s, Repeated(DATA), n).be) != DATA
  {
    var line := Repeated(DATA);
    hide *;
    RepeatedCarries(DATA);
    AtFirst(s, line, 0, 0);
    PhaseIsOneHot(0);
    OutOfPhase(n - 3);
    NoCommas(n - 2);
    NoCommas(n - 3);
    LatchIs(s, line, 0, _ => DATA, 0, n - 2);
    LatchIs(s, line, 0, _ => DATA, 0, n - 3);
    AlignedIs(s, line, n);
    ShowsWord(s, line, 0, _ => DATA, n);
  }

  lemma {:induction false} OutOfPhase(i: nat)
    ensures !InPhase(Repeated(DATA), 0, 2, i)
  {
    assert WordFrom(Repeated(DATA), 4 * i).s0 != WordFrom(Repeated(DATA), 4 * i + 1).s0;
  }

  lemma IdleLeads()
    ensures Character(TxWord(CONTROL, IDLE), 0) == COMMA
    ensures Framed(_ => TxWord(CONTROL, IDLE)) && Clean(Repeated(TxWord(CONTROL, IDLE)), 0, 0)
    ensures forall n: nat :: Repeated(TxWord(CONTROL, IDLE)).sync(n)
    ensures !CommaBefore(Repeated(TxWord(CONTROL, IDLE)), 0, _ => TxWord(CONTROL, IDLE), 0)
  {
  }

  // On a stream of IDLE words the first is shown three clocks in without the flag; the next one has it.
  lemma {:induction false} FirstIdleUnflagged(s: Rx)
    requires s.saved == 0
    ensures var line, idle := Repeated(TxWord(CONTROL, IDLE)), TxWord(CONTROL, IDLE);
            ToWord(At(s, line, 3).be) == idle && !At(s, line, 3).aligned
  {
    hide *;
    var w := TxWord(CONTROL, IDLE);
    RepeatedCarries(w);
    IdleLeads();
    FirstCommaUnflagged(s, Repeated(w), 0, _ => w, 0);
  }

  lemma {:induction false} SecondIdleFlagged(s: Rx)
    ensures var line, idle := Repeated(TxWord(CONTROL, IDLE)), TxWord(CONTROL, IDLE);
            ToWord(At(s, line, 4).be) == idle && At(s, line, 4).aligned
  {
    hide *;
    var w := TxWord(CONTROL, IDLE);
    RepeatedCarries(w);
    IdleLeads();
    WordsAfterComma(s, Repeated(w), 0, _ => w, 0, 4);
    AlignedForGood(s, Repeated(w), 0, _ => w, 0, 4);
  }
}
