/** Transmission words and ordered sets (ip/fc.sv).

    A 36-bit Avalon word is a pair of a control nibble and a 32-bit value.  An ordered set is a
    word whose control nibble marks the leading K28.5 character and no other.
 */
module FcPrimitives {

  const WORD_LIMIT: nat := 0x1_0000_0000

  type Word32 = w: nat | w < WORD_LIMIT

  type Nibble = n: nat | n < 16

  datatype TxWord = TxWord(datak: Nibble, data: Word32)

  datatype Primitive =
    | PrimIdle | PrimRRdy | PrimVcRdy | PrimBbScs | PrimBbScr
    | PrimSofI2 | PrimSofN2 | PrimSofI3 | PrimSofN3 | PrimSofF
    | PrimEofT | PrimEofA | PrimEofN | PrimEofNI
    | PrimNos | PrimOls | PrimLr | PrimLrr | PrimArbFf
    | PrimUnknown

  // Only the leading character of the word is a control character.
  const CONTROL: Nibble := 8

  // The character Dx.y.
  function D(x: nat, y: nat): (b: nat)
    requires x < 32 && y < 8
    ensures b < 256
  {
    y * 32 + x
  }

  function Word(b3: nat, b2: nat, b1: nat, b0: nat): (w: Word32)
    requires b3 < 256 && b2 < 256 && b1 < 256 && b0 < 256
    ensures w / 65536 == b3 * 256 + b2
  {
    ((b3 * 256 + b2) * 256 + b1) * 256 + b0
  }

  // Table 7 of FC-FS-5: frame delimiters
  const SOFI2: Word32 := 0xBCB5_5555
  const SOFN2: Word32 := 0xBCB5_3535
  const SOFI3: Word32 := 0xBCB5_5656
  const SOFN3: Word32 := 0xBCB5_3636
  const SOFF: Word32 := 0xBCB5_5858
  const EOFT_N: Word32 := 0xBCB5_7575
  const EOFT_P: Word32 := 0xBC95_7575
  const EOFA_N: Word32 := 0xBCB5_F5F5
  const EOFA_P: Word32 := 0xBC95_F5F5
  const EOFN_N: Word32 := 0xBCB5_D5D5
  const EOFN_P: Word32 := 0xBC95_D5D5
  const EOFNI_N: Word32 := 0xBCAA_D5D5
  const EOFNI_P: Word32 := 0xBC8A_D5D5

  // Table 8 of FC-FS-5: primitive signals
  const IDLE: Word32 := 0xBC95_B5B5
  const R_RDY: Word32 := 0xBC95_4A4A
  const BB_SCS: Word32 := 0xBC95_9696
  const BB_SCR: Word32 := 0xBC95_D6D6
  const ARBFF: Word32 := 0xBC94_FFFF

  // Table 9 of FC-FS-5: primitive sequences
  const NOS: Word32 := 0xBC55_BF45
  const OLS: Word32 := 0xBC35_8A55
  const LR: Word32 := 0xBC49_BF49
  const LRR: Word32 := 0xBC35_BF49

  function MapPrimitive(data: Word32): Primitive
  {
    if data / 65536 == D(28, 5) * 256 + D(21, 7) then PrimVcRdy
    else if data == IDLE then PrimIdle
    else if data == R_RDY then PrimRRdy
    else if data == BB_SCS then PrimBbScs
    else if data == BB_SCR then PrimBbScr
    else if data == SOFI2 then PrimSofI2
    else if data == SOFN2 then PrimSofN2
    else if data == SOFI3 then PrimSofI3
    else if data == SOFN3 then PrimSofN3
    else if data == SOFF then PrimSofF
    else if data == EOFT_N then PrimEofT
    else if data == EOFT_P then PrimEofT
    else if data == EOFA_N then PrimEofA
    else if data == EOFA_P then PrimEofA
    else if data == EOFN_N then PrimEofN
    else if data == EOFN_P then PrimEofN
    else if data == EOFNI_N then PrimEofNI
    else if data == EOFNI_P then PrimEofNI
    else if data == NOS then PrimNos
    else if data == OLS then PrimOls
    else if data == LR then PrimLr
    else if data == LRR then PrimLrr
    else if data == ARBFF then PrimArbFf
    else PrimUnknown
  }

  // The code words of each ordered set, with both disparity forms of the end-of-frame
  // delimiters.  VC_RDY carries a virtual channel in its last two characters.
  predicate IsCode(p: Primitive, w: Word32)
  {
    match p
    case PrimIdle => w == IDLE
    case PrimRRdy => w == R_RDY
    case PrimVcRdy => w / 65536 == 0xBCF5
    case PrimBbScs => w == BB_SCS
    case PrimBbScr => w == BB_SCR
    case PrimSofI2 => w == SOFI2
    case PrimSofN2 => w == SOFN2
    case PrimSofI3 => w == SOFI3
    case PrimSofN3 => w == SOFN3
    case PrimSofF => w == SOFF
    case PrimEofT => w == EOFT_N || w == EOFT_P
    case PrimEofA => w == EOFA_N || w == EOFA_P
    case PrimEofN => w == EOFN_N || w == EOFN_P
    case PrimEofNI => w == EOFNI_N || w == EOFNI_P
    case PrimNos => w == NOS
    case PrimOls => w == OLS
    case PrimLr => w == LR
    case PrimLrr => w == LRR
    case PrimArbFf => w == ARBFF
    case PrimUnknown => false
  }

  // Each value is the ordered set of the standard, spelled in its four characters.
  lemma CodesAreCharacters()
    ensures SOFI2 == Word(D(28, 5), D(21, 5), D(21, 2), D(21, 2))
    ensures SOFN2 == Word(D(28, 5), D(21, 5), D(21, 1), D(21, 1))
    ensures SOFI3 == Word(D(28, 5), D(21, 5), D(22, 2), D(22, 2))
    ensures SOFN3 == Word(D(28, 5), D(21, 5), D(22, 1), D(22, 1))
    ensures SOFF == Word(D(28, 5), D(21, 5), D(24, 2), D(24, 2))
    ensures EOFT_N == Word(D(28, 5), D(21, 5), D(21, 3), D(21, 3))
    ensures EOFT_P == Word(D(28, 5), D(21, 4), D(21, 3), D(21, 3))
    ensures EOFA_N == Word(D(28, 5), D(21, 5), D(21, 7), D(21, 7))
    ensures EOFA_P == Word(D(28, 5), D(21, 4), D(21, 7), D(21, 7))
    ensures EOFN_N == Word(D(28, 5), D(21, 5), D(21, 6), D(21, 6))
    ensures EOFN_P == Word(D(28, 5), D(21, 4), D(21, 6), D(21, 6))
    ensures EOFNI_N == Word(D(28, 5), D(10, 5), D(21, 6), D(21, 6))
    ensures EOFNI_P == Word(D(28, 5), D(10, 4), D(21, 6), D(21, 6))
    ensures IDLE == Word(D(28, 5), D(21, 4), D(21, 5), D(21, 5))
    ensures R_RDY == Word(D(28, 5), D(21, 4), D(10, 2), D(10, 2))
    ensures BB_SCS == Word(D(28, 5), D(21, 4), D(22, 4), D(22, 4))
    ensures BB_SCR == Word(D(28, 5), D(21, 4), D(22, 6), D(22, 6))
    ensures ARBFF == Word(D(28, 5), D(20, 4), D(31, 7), D(31, 7))
    ensures NOS == Word(D(28, 5), D(21, 2), D(31, 5), D(5, 2))
    ensures OLS == Word(D(28, 5), D(21, 1), D(10, 4), D(21, 2))
    ensures LR == Word(D(28, 5), D(9, 2), D(31, 5), D(9, 2))
    ensures LRR == Word(D(28, 5), D(21, 1), D(31, 5), D(9, 2))
  {
  }

  // No earlier arm of the decoder shadows a later code word.
  lemma CodeIsDecoded(p: Primitive, w: Word32)
    requires IsCode(p, w)
    ensures MapPrimitive(w) == p
  {
    match p
    case PrimIdle => case PrimRRdy => case PrimVcRdy => case PrimBbScs => case PrimBbScr =>
    case PrimSofI2 => case PrimSofN2 => case PrimSofI3 => case PrimSofN3 => case PrimSofF =>
    case PrimEofT => case PrimEofA => case PrimEofN => case PrimEofNI =>
    case PrimNos => case PrimOls => case PrimLr => case PrimLrr => case PrimArbFf =>
  }

  lemma DecodedIsCode(w: Word32)
    ensures MapPrimitive(w) != PrimUnknown ==> IsCode(MapPrimitive(w), w)
  {
  }

  // The decoder inverts the code tables.
  lemma MapPrimitiveInvertsCodes(w: Word32, p: Primitive)
    requires p != PrimUnknown
    ensures MapPrimitive(w) == p <==> IsCode(p, w)
  {
    DecodedIsCode(w);
    if IsCode(p, w) {
      CodeIsDecoded(p, w);
    }
  }

  // What a received word means to a port: words without the control pattern mean nothing.
  function Signal(w: TxWord): Primitive
  {
    if w.datak == CONTROL then MapPrimitive(w.data) else PrimUnknown
  }

  predicate IsSof(p: Primitive)
  {
    p in {PrimSofI2, PrimSofN2, PrimSofI3, PrimSofN3, PrimSofF}
  }

  predicate IsEof(p: Primitive)
  {
    p in {PrimEofT, PrimEofA, PrimEofN, PrimEofNI}
  }

  predicate IsFill(p: Primitive)
  {
    p in {PrimIdle, PrimArbFf}
  }

  // Every word by itself: the five start-of-frame words, the eight end-of-frame words and the two fill words.
  lemma DelimiterWords(w: Word32)
    ensures IsSof(MapPrimitive(w)) <==>
            w in {0xBCB5_5555, 0xBCB5_3535, 0xBCB5_5656, 0xBCB5_3636, 0xBCB5_5858}
    ensures IsEof(MapPrimitive(w)) <==>
            w in {0xBCB5_7575, 0xBC95_7575, 0xBCB5_F5F5, 0xBC95_F5F5,
                  0xBCB5_D5D5, 0xBC95_D5D5, 0xBCAA_D5D5, 0xBC8A_D5D5}
    ensures IsFill(MapPrimitive(w)) <==> w in {0xBC95_B5B5, 0xBC94_FFFF}
  {
  }
}
