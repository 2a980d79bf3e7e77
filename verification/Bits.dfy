/** Bitwise operators on unbounded natural numbers, as C and Python apply them to register values. */
module Bits {

  function Pow2(k: nat): (p: nat)
    ensures p > 0
  {
    if k == 0 then 1 else 2 * Pow2(k - 1)
  }

  lemma Pow2Values()
    ensures Pow2(2) == 4 && Pow2(3) == 8 && Pow2(4) == 16 && Pow2(8) == 256 && Pow2(9) == 512
    ensures Pow2(10) == 1024 && Pow2(12) == 4096 && Pow2(13) == 8192 && Pow2(14) == 16384
    ensures Pow2(15) == 32768 && Pow2(16) == 65536
    ensures Pow2(18) == 262144 && Pow2(20) == 0x10_0000 && Pow2(24) == 0x100_0000 && Pow2(29) == 0x2000_0000
    ensures Pow2(30) == 0x4000_0000
    ensures Pow2(32) == 0x1_0000_0000
  {
  }

  function ShiftLeft(x: nat, k: nat): nat
  {
    if k == 0 then x else 2 * ShiftLeft(x, k - 1)
  }

  function ShiftRight(x: nat, k: nat): nat
  {
    if k == 0 then x else ShiftRight(x / 2, k - 1)
  }

  // The bits set in either number
  function Or(a: nat, b: nat): nat
    decreases a + b
  {
    if a == 0 && b == 0 then 0
    else 2 * Or(a / 2, b / 2) + (if a % 2 == 1 || b % 2 == 1 then 1 else 0)
  }

  // The bits set in both numbers
  function And(a: nat, b: nat): nat
    decreases a + b
  {
    if a == 0 && b == 0 then 0
    else 2 * And(a / 2, b / 2) + (if a % 2 == 1 && b % 2 == 1 then 1 else 0)
  }

  lemma {:induction false} OrZero(a: nat)
    ensures Or(0, a) == a && Or(a, 0) == a
  {
    if a > 0 {
      OrZero(a / 2);
    }
  }

  lemma {:induction false} OrCommutes(a: nat, b: nat)
    ensures Or(a, b) == Or(b, a)
    decreases a + b
  {
    if a + b > 0 {
      OrCommutes(a / 2, b / 2);
    }
  }

  lemma OrEven(low: nat, h: nat)
    ensures Or(low, 2 * h) == 2 * Or(low / 2, h) + low % 2
  {
    if low == 0 && h == 0 {
    } else {
      assert 2 * h / 2 == h && 2 * h % 2 == 0;
    }
  }

  // Numbers that share no bit position add up.
  lemma {:induction false} OrDisjoint(low: nat, high: nat, k: nat)
    requires low < Pow2(k)
    ensures Or(low, high * Pow2(k)) == low + high * Pow2(k)
    decreases k
  {
    if k == 0 {
      OrZero(high);
    } else {
      var h := high * Pow2(k - 1);
      assert high * Pow2(k) == 2 * h;
      hide Or;
      OrDisjoint(low / 2, high, k - 1);
      OrEven(low, h);
    }
  }

  // An or leaves a number unchanged if and only if it adds no bit.
  lemma {:induction false} OrAbsorbs(a: nat, b: nat)
    ensures Or(a, b) == b <==> And(a, b) == a
    decreases a + b
  {
    if a + b > 0 {
      OrAbsorbs(a / 2, b / 2);
      BitwiseHalves(a, b);
    }
  }

  // Halving an or or an and halves its operands.
  lemma BitwiseHalves(a: nat, b: nat)
    ensures Or(a, b) / 2 == Or(a / 2, b / 2) && And(a, b) / 2 == And(a / 2, b / 2)
    ensures Or(a, b) % 2 == (if a % 2 == 1 || b % 2 == 1 then 1 else 0)
    ensures And(a, b) % 2 == (if a % 2 == 1 && b % 2 == 1 then 1 else 0)
  {
  }

  // An or needs no more bits than its operands.
  lemma {:induction false} OrBounded(a: nat, b: nat, k: nat)
    requires a < Pow2(k) && b < Pow2(k)
    ensures Or(a, b) < Pow2(k)
    decreases k
  {
    if k > 0 {
      OrBounded(a / 2, b / 2, k - 1);
      BitwiseHalves(a, b);
      hide Or;
      assert Or(a, b) == 2 * Or(a / 2, b / 2) + Or(a, b) % 2;
    }
  }

  lemma {:induction false} AndZero(a: nat)
    ensures And(0, a) == 0
  {
    if a > 0 {
      AndZero(a / 2);
    }
  }

  lemma {:induction false} AndCommutes(a: nat, b: nat)
    ensures And(a, b) == And(b, a)
    decreases a + b
  {
    if a + b > 0 {
      AndCommutes(a / 2, b / 2);
    }
  }

  // Bit k of a number
  predicate Bit(a: nat, k: nat)
  {
    ShiftRight(a, k) % 2 == 1
  }

  lemma {:induction false} BitOfAnd(a: nat, b: nat, k: nat)
    ensures Bit(And(a, b), k) == (Bit(a, k) && Bit(b, k))
    decreases k
  {
    BitwiseHalves(a, b);
    if k > 0 {
      BitOfAnd(a / 2, b / 2, k - 1);
    }
  }

  // Shifting right by at least its own number of bits leaves nothing of a number.
  lemma {:induction false} ShiftedOut(a: nat, j: nat, k: nat)
    requires a < Pow2(j) && j <= k
    ensures ShiftRight(a, k) == 0
    decreases k
  {
    if k > 0 {
      ShiftedOut(a / 2, if j == 0 then 0 else j - 1, k - 1);
    }
  }

  // ----- Fields of a word -----

  lemma Multiple(k: nat, n: nat)
    requires k > 0
    ensures k * n == n * k >= n
  {
    assert k * n == n + (k - 1) * n;
  }

  lemma Difference(x: nat, y: nat, n: nat)
    requires x <= y
    ensures (y - x) * n == y * n - x * n
  {
  }

  // Quotient and remainder are unique.
  lemma QuotientUnique(q: nat, r: nat, x: nat, d: nat, n: nat)
    requires q * n + r == x * n + d && r < n && d < n
    ensures q == x && r == d
  {
    if q < x {
      Difference(q, x, n);
      Multiple(x - q, n);
    } else if x < q {
      Difference(x, q, n);
      Multiple(q - x, n);
    }
  }

  // The last digit of a number in base n, and the number without it
  lemma LastDigit(x: nat, d: nat, n: nat)
    requires d < n
    ensures (x * n + d) / n == x && (x * n + d) % n == d
  {
    var w := x * n + d;
    QuotientUnique(w / n, w % n, x, d, n);
  }

  // Shifting right and masking
  function Field(w: nat, place: nat, size: nat): nat
    requires place > 0 && size > 0
  {
    w / place % size
  }

  lemma FieldOf(w: nat, low: nat, field: nat, high: nat, place: nat, size: nat)
    requires low < place && field < size
    requires w == (high * size + field) * place + low
    ensures Field(w, place, size) == field
  {
    LastDigit(high * size + field, low, place);
    LastDigit(high, field, size);
  }

  lemma {:induction false} AndBelow(a: nat, b: nat)
    ensures And(a, b) <= b
    decreases a + b
  {
    if a + b > 0 {
      AndBelow(a / 2, b / 2);
    }
  }

  lemma AndOdd(a: nat, m: nat)
    ensures And(a, 2 * m + 1) == 2 * And(a / 2, m) + a % 2
  {
    BitwiseHalves(a, 2 * m + 1);
  }

  lemma AndFour(x: nat, m: nat, b0: nat, b1: nat)
    requires b0 < 2 && b1 < 2
    ensures And(4 * x + 2 * b1 + b0, 4 * m + 3) == 4 * And(x, m) + 2 * b1 + b0
  {
    var y := 2 * x + b1;
    var a := 2 * y + b0;
    assert a / 2 == y && a % 2 == b0 && y / 2 == x && y % 2 == b1;
    hide And;
    AndOdd(a, 2 * m + 1);
    AndOdd(y, m);
  }

  // A mask of five ones keeps the last five bits.
  lemma AndOnes(q: nat, r: nat)
    requires r < 32
    ensures And(32 * q + r, 31) == r
  {
    hide And;
    var s, u := r / 4, r / 16;
    AndFour(8 * q + s, 7, r % 2, r / 2 % 2);
    AndFour(2 * q + u, 1, s % 2, s / 2 % 2);
    AndOdd(2 * q + u, 0);
    AndCommutes(q, 0);
    AndZero(q);
    assert (2 * q + u) / 2 == q && (2 * q + u) % 2 == u;
    assert r == 4 * s + 2 * (r / 2 % 2) + r % 2;
    assert s == 4 * u + 2 * (s / 2 % 2) + s % 2;
  }

  // ----- Bytes of a word -----

  function FromBytes(a: nat, b: nat, c: nat, d: nat): nat
  {
    ((a * 256 + b) * 256 + c) * 256 + d
  }

  // A 32-bit word is its four bytes.
  lemma BytesOf(a: nat, b: nat, c: nat, d: nat)
    requires a < 256 && b < 256 && c < 256 && d < 256
    ensures var w := FromBytes(a, b, c, d);
            w < 0x1_0000_0000
            && w / 256 / 256 / 256 % 256 == a && w / 256 / 256 % 256 == b && w / 256 % 256 == c && w % 256 == d
  {
    LastDigit((a * 256 + b) * 256 + c, d, 256);
    LastDigit(a * 256 + b, c, 256);
    LastDigit(a, b, 256);
  }

  lemma WordOf(w: nat)
    requires w < 0x1_0000_0000
    ensures FromBytes(w / 256 / 256 / 256 % 256, w / 256 / 256 % 256, w / 256 % 256, w % 256) == w
  {
    assert w / 256 / 256 / 256 < 256;
  }
}
