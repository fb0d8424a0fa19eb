/** Reversing 5, 9 and 15 bits through a table of 32 entries. */
module Reverse {
  import opened Bits

  const REVERSE5: seq<nat> :=
    [0x0, 0x10, 0x8, 0x18, 0x4, 0x14, 0xc, 0x1c,
     0x2, 0x12, 0xa, 0x1a, 0x6, 0x16, 0xe, 0x1e,
     0x1, 0x11, 0x9, 0x19, 0x5, 0x15, 0xd, 0x1d,
     0x3, 0x13, 0xb, 0x1b, 0x7, 0x17, 0xf, 0x1f]

  /** Bitwise or. */
  function Or(a: nat, b: nat): nat {
    if a == 0 then b else (if a % 2 == 1 || b % 2 == 1 then 1 else 0) + 2 * Or(a / 2, b / 2)
  }

  function Reverse5Bits(code: nat): nat
    requires code < 0x20
  {
    REVERSE5[code]
  }

  function Reverse9Bits(code: nat): nat
    requires code < 0x200
  {
    Or(Shl(Reverse5Bits(code % 0x20), 4), Reverse5Bits(code / 0x10))
  }

  function Reverse15Bits(code: nat): nat
    requires code < 0x8000
  {
    Or(Shl(Reverse5Bits(code % 0x20), 10),
       Or(Shl(Reverse5Bits(code / 0x20 % 0x20), 5), Reverse5Bits(code / 0x400)))
  }

  /** Each half of the table follows from entries at half the index. */
  lemma TableHalves(code: nat)
    requires code < 0x20
    ensures REVERSE5[code] == 16 * (code % 2) + REVERSE5[code / 2] / 2
  {
    hide REVERSE5;
    if code < 0x10 {
      TableHalvesLow(code);
    } else {
      TableHalvesHigh(code);
    }
  }

  lemma TableHalvesLow(code: nat)
    requires code < 0x10
    ensures REVERSE5[code] == 16 * (code % 2) + REVERSE5[code / 2] / 2
  {}

  lemma TableHalvesHigh(code: nat)
    requires 0x10 <= code < 0x20
    ensures REVERSE5[code] == 16 * (code % 2) + REVERSE5[code / 2] / 2
  {}

  /** The table holds the reversals of all 5-bit numbers. */
  lemma {:induction false} Reverse5IsRev(code: nat, four: nat)
    requires code < 0x20 && four == 4
    ensures Reverse5Bits(code) == Rev(code, four + 1)
  {
    hide REVERSE5;
    if code == 0 {
      RevZero(four + 1);
      TableZero();
    } else {
      Reverse5IsRev(code / 2, four);
      TableHalves(code);
      RevTop(code / 2, four);
      ShiftedBit(code % 2, four);
    }
  }

  lemma TableZero()
    ensures REVERSE5[0] == 0
  {}

  lemma ShiftedBit(b: nat, four: nat)
    requires b < 2 && four == 4
    ensures Shl(b, four) == 16 * b
  {
    Powers();
    ShlZero(four);
  }

  /** A leading zero bit doubles the reversal. */
  lemma {:induction false} RevTop(v: nat, k: nat)
    requires v < Shl(1, k)
    ensures Rev(v, k + 1) == 2 * Rev(v, k)
  {
    if k == 0 {
      RevZero(1);
    } else {
      RevTop(v / 2, k - 1);
    }
  }

  lemma {:induction false} OrZero(a: nat)
    ensures Or(a, 0) == a
  {
    if a > 0 {
      OrZero(a / 2);
    }
  }

  /** Below bit `k` only the second operand has bits. */
  lemma {:induction false} OrSplit(a: nat, b: nat, low: nat, k: nat)
    requires low < Shl(1, k)
    ensures Or(Shl(a, k), Shl(b, k) + low) == Shl(Or(a, b), k) + low
    decreases k
  {
    if a == 0 {
      ShlZero(k);
    } else if k > 0 {
      OrSplit(a, b, low / 2, k - 1);
      var v := Shl(b, k) + low;
      assert v / 2 == Shl(b, k - 1) + low / 2 && v % 2 == low % 2;
    }
  }

  lemma OrDisjoint(a: nat, low: nat, k: nat)
    requires low < Shl(1, k)
    ensures Or(Shl(a, k), low) == Shl(a, k) + low
  {
    hide Or, Shl;
    ShlZero(k);
    OrSplit(a, 0, low, k);
    OrZero(a);
  }

  /** Shifts by constants are divisions by powers of two. */
  lemma {:induction false} ShrIsDiv(v: nat, k: nat, n: nat)
    requires n == Shl(1, k)
    ensures Shr(v, k) == v / n && Low(v, k) == v % n
    decreases k
  {
    if k > 0 {
      ShrIsDiv(v / 2, k - 1, Shl(1, k - 1));
      HalfDiv(v, Shl(1, k - 1));
    }
  }

  lemma HalfDiv(v: nat, n: nat)
    requires n >= 1
    ensures v / (2 * n) == v / 2 / n && v % (2 * n) == v % 2 + 2 * (v / 2 % n)
  {
    var q, r := v / 2 / n, v / 2 % n;
    DivModUnique(v, 2 * n, q, v % 2 + 2 * r);
  }

  lemma DivModUnique(x: int, d: int, q: int, r: int)
    requires d > 0 && 0 <= r < d && x == d * q + r
    ensures x / d == q && x % d == r
  {
    MulGap(d, x / d - q);
    assert d * (x / d - q) == d * (x / d) - d * q;
  }

  lemma MulGap(d: int, k: int)
    requires d > 0
    ensures k > 0 ==> d * k >= d
    ensures k < 0 ==> d * k <= -d
  {}

  /** The 9-bit macro overlaps its two halves in one bit, which agrees. */
  lemma Reverse9IsRev(code: nat)
    requires code < 0x200
    ensures Reverse9Bits(code) == Rev(code, 9)
  {
    hide Rev, Shl, Or, REVERSE5, Low, Shr, Reverse5Bits;
    var five, four, one := 5, 4, 1;
    Reverse5IsRev(code % 0x20, four);
    Reverse5IsRev(code / 0x10, four);
    Powers();
    ShrIsDiv(code, five, 0x20);
    ShrIsDiv(code, four, 0x10);
    RevOfLow(code, five);
    RevSplit(code, five, four);
    RevSplit(Shr(code, four), one, four);
    ShrTwice(code, four, one);
    OrSplit(Rev(code, five), Rev(Shr(code, four), one), Rev(Shr(code, five), four), four);
    MiddleBit(code, four, one);
  }

  lemma Reverse15IsRev(code: nat)
    requires code < 0x8000
    ensures Reverse15Bits(code) == Rev(code, 15)
  {
    hide Rev, Shl, Or, REVERSE5, Low, Shr, Reverse5Bits;
    var five, ten, four := 5, 10, 4;
    Reverse5IsRev(code % 0x20, four);
    Reverse5IsRev(code / 0x20 % 0x20, four);
    Reverse5IsRev(code / 0x400, four);
    Powers();
    ShrIsDiv(code, five, 0x20);
    ShrIsDiv(Shr(code, five), five, 0x20);
    ShrIsDiv(code, ten, 0x400);
    ShrTwice(code, five, five);
    RevOfLow(code, five);
    RevOfLow(Shr(code, five), five);
    RevSplit(code, five, ten);
    RevSplit(Shr(code, five), five, five);
    OrDisjoint(Rev(Shr(code, five), five), Rev(Shr(code, ten), five), five);
    OrDisjoint(Rev(code, five), Rev(Shr(code, five), ten), ten);
  }

  /** The last bit of the reversal of `k + 1` bits is bit `k`. */
  lemma MiddleBit(code: nat, k: nat, one: nat)
    requires one == 1
    ensures Or(Rev(code, k + one), Rev(Shr(code, k), one)) == Rev(code, k + one)
  {
    hide Or, Shl, Rev, Shr;
    RevSplit(code, k, one);
    OrLowBit(Rev(code, k), Rev(Shr(code, k), one), one);
  }

  lemma OrLowBit(a: nat, b: nat, one: nat)
    requires one == 1 && b < Shl(1, one)
    ensures Or(Shl(a, one) + b, b) == Shl(a, one) + b
  {
    OrZero(a);
    assert b / 2 == 0;
  }
}
