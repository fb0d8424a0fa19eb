/** Bit-level arithmetic shared by the inflater and its specification.  Shifts and masks are
    defined by recursion on the shift count, so every fact about them is linear. */
module Bits {

  type Byte = b: int | 0 <= b < 256

  /** `v << k` on unbounded numbers. */
  function Shl(v: nat, k: nat): (r: nat)
    ensures v <= r
  {
    if k == 0 then v else 2 * Shl(v, k - 1)
  }

  /** `v >> k`. */
  function Shr(v: nat, k: nat): (r: nat)
    ensures r <= v
  {
    if k == 0 then v else Shr(v / 2, k - 1)
  }

  /** `v & ((1 << k) - 1)`. */
  function Low(v: nat, k: nat): (r: nat)
    ensures r <= v && r < Shl(1, k)
  {
    if k == 0 then 0 else v % 2 + 2 * Low(v / 2, k - 1)
  }

  /** The powers of two that the proofs mention. */
  lemma Powers()
    ensures Shl(1, 0) == 1 && Shl(1, 1) == 2 && Shl(1, 2) == 4 && Shl(1, 3) == 8 && Shl(1, 4) == 16
    ensures Shl(1, 5) == 32 && Shl(1, 6) == 64 && Shl(1, 7) == 128 && Shl(1, 8) == 256 && Shl(1, 9) == 512
    ensures Shl(1, 10) == 1024 && Shl(1, 13) == 8192 && Shl(1, 15) == 32768
  {
    assert Shl(1, 2) == 4;
    assert Shl(1, 4) == 16;
    assert Shl(1, 6) == 64;
    assert Shl(1, 8) == 256;
    assert Shl(1, 10) == 1024;
    assert Shl(1, 12) == 4096;
    assert Shl(1, 14) == 16384;
  }

  lemma {:induction false} ShlAdd(v: nat, w: nat, k: nat)
    ensures Shl(v + w, k) == Shl(v, k) + Shl(w, k)
  {
    if k > 0 {
      ShlAdd(v, w, k - 1);
    }
  }

  lemma {:induction false} ShlZero(k: nat)
    ensures Shl(0, k) == 0
  {
    if k > 0 {
      ShlZero(k - 1);
    }
  }

  lemma {:induction false} ShlTwice(v: nat, m: nat, n: nat)
    ensures Shl(Shl(v, m), n) == Shl(v, m + n)
  {
    if n > 0 {
      ShlTwice(v, m, n - 1);
    }
  }

  lemma ShlDouble(v: nat, k: nat)
    ensures Shl(2 * v, k) == 2 * Shl(v, k)
  {
    ShlAdd(v, v, k);
  }

  lemma ShlMonotone(v: nat, w: nat, k: nat)
    requires v <= w
    ensures Shl(v, k) <= Shl(w, k)
  {
    ShlAdd(v, w - v, k);
  }

  lemma ShlPowerMonotone(v: nat, m: nat, n: nat)
    requires m <= n
    ensures Shl(v, m) <= Shl(v, n)
  {
    ShlTwice(v, m, n - m);
  }

  /** A number is its high part shifted up plus its low part. */
  lemma {:induction false} HighLow(v: nat, k: nat)
    ensures v == Shl(Shr(v, k), k) + Low(v, k)
  {
    if k > 0 {
      HighLow(v / 2, k - 1);
    }
  }

  /** ... and that splitting is unique. */
  lemma {:induction false} HighLowUnique(high: nat, low: nat, k: nat)
    requires low < Shl(1, k)
    ensures Shr(Shl(high, k) + low, k) == high && Low(Shl(high, k) + low, k) == low
  {
    if k > 0 {
      HighLowUnique(high, low / 2, k - 1);
      var v := Shl(high, k) + low;
      assert v / 2 == Shl(high, k - 1) + low / 2 && v % 2 == low % 2;
    }
  }

  lemma LowSmall(v: nat, k: nat)
    requires v < Shl(1, k)
    ensures Low(v, k) == v && Shr(v, k) == 0
  {
    ShlZero(k);
    HighLowUnique(0, v, k);
  }

  lemma {:induction false} ShrTwice(v: nat, m: nat, n: nat)
    ensures Shr(Shr(v, m), n) == Shr(v, m + n)
  {
    if m > 0 {
      ShrTwice(v / 2, m - 1, n);
    }
  }

  /** The low `m` bits of the low `m + n` bits; and the bits above them. */
  lemma {:induction false} LowOfLow(v: nat, m: nat, n: nat)
    ensures Low(Low(v, m + n), m) == Low(v, m)
    ensures Shr(Low(v, m + n), m) == Low(Shr(v, m), n)
  {
    if m > 0 {
      LowOfLow(v / 2, m - 1, n);
      assert Low(v, m + n) / 2 == Low(v / 2, m + n - 1);
    }
  }

  lemma ShrMonotone(v: nat, w: nat, k: nat)
    requires v <= w
    ensures Shr(v, k) <= Shr(w, k)
    decreases k
  {
    if k > 0 {
      ShrMonotone(v / 2, w / 2, k - 1);
    }
  }

  lemma ShrUpper(v: nat, w: nat, k: nat)
    requires v < Shl(w, k)
    ensures Shr(v, k) < w
    decreases k
  {
    if k > 0 {
      ShrUpper(v / 2, w, k - 1);
    }
  }

  /** Numbers with the same low `k` bits are at least `1 << k` apart. */
  lemma {:induction false} SameLow(v: nat, w: nat, k: nat)
    requires Low(v, k) == Low(w, k) && v <= w < v + Shl(1, k)
    ensures v == w
    decreases k
  {
    if k > 0 {
      assert v % 2 == w % 2;
      SameLow(v / 2, w / 2, k - 1);
    }
  }

  /** Stepping by `1 << k` keeps the low `k` bits. */
  lemma LowStep(v: nat, k: nat)
    ensures Low(v + Shl(1, k), k) == Low(v, k)
  {
    HighLow(v, k);
    ShlAdd(Shr(v, k), 1, k);
    HighLowUnique(Shr(v, k) + 1, Low(v, k), k);
  }

  // ---------- bit reversal ----------

  /** The `n` low bits of `v` in the opposite order. */
  function Rev(v: nat, n: nat): (r: nat)
    ensures r < Shl(1, n)
  {
    if n == 0 then 0 else
      ShlMonotone(v % 2, 1, n - 1);
      Shl(v % 2, n - 1) + Rev(v / 2, n - 1)
  }

  /** Reversing a value reverses its two parts and swaps them. */
  lemma {:induction false} RevSplit(v: nat, m: nat, n: nat)
    ensures Rev(v, m + n) == Shl(Rev(v, m), n) + Rev(Shr(v, m), n)
  {
    if m == 0 {
      ShlZero(n);
    } else {
      RevSplit(v / 2, m - 1, n);
      RevStep(v, m + n);
      RevStep(v, m);
      assert Shr(v, m) == Shr(v / 2, m - 1);
      hide Rev, Shl, Shr;
      ShlTwice(v % 2, m - 1, n);
      ShlAdd(Shl(v % 2, m - 1), Rev(v / 2, m - 1), n);
    }
  }

  lemma RevStep(v: nat, n: nat)
    requires n > 0
    ensures Rev(v, n) == Shl(v % 2, n - 1) + Rev(v / 2, n - 1)
  {}

  /** Only the low `n` bits matter. */
  lemma {:induction false} RevOfLow(v: nat, n: nat)
    ensures Rev(Low(v, n), n) == Rev(v, n)
  {
    if n > 0 {
      RevOfLow(v / 2, n - 1);
      var low := Low(v, n);
      assert low / 2 == Low(v / 2, n - 1) && low % 2 == v % 2;
      hide Low, Shl;
    }
  }

  lemma RevOne(b: nat)
    requires b < 2
    ensures Rev(b, 1) == b
  {
    assert Rev(b / 2, 0) == 0;
  }

  /** Reversal is its own inverse. */
  lemma {:induction false} RevRev(v: nat, n: nat)
    requires v < Shl(1, n)
    ensures Rev(Rev(v, n), n) == v
  {
    if n > 0 {
      RevRev(v / 2, n - 1);
      RevRevStep(v % 2, v / 2, Rev(v / 2, n - 1), n - 1, 1);
    }
  }

  lemma RevRevStep(b: nat, v: nat, low: nat, m: nat, one: nat)
    requires b < 2 && one == 1 && low < Shl(1, m) && Rev(low, m) == v
    ensures Rev(Shl(b, m) + low, m + one) == 2 * v + b
  {
    assert Shl(v, one) == 2 * v by { assert Shl(v, 0) == v; }
    hide Rev, Shl, Low, Shr;
    HighLowUnique(b, low, m);
    RevOfLow(Shl(b, m) + low, m);
    RevOne(b);
    RevSplit(Shl(b, m) + low, m, one);
  }

  /** The low `m` bits of a reversed value are its reversed high bits. */
  lemma RevLow(v: nat, k: nat, m: nat)
    ensures Low(Rev(v, k + m), m) == Rev(Shr(v, k), m)
  {
    RevSplit(v, k, m);
    HighLowUnique(Rev(v, k), Rev(Shr(v, k), m), m);
  }

  /** Padding a value with low zero bits does not change its reversal. */
  lemma RevPad(v: nat, k: nat, n: nat)
    ensures Rev(Shl(v, k), k + n) == Rev(v, n)
  {
    RevSplit(Shl(v, k), k, n);
    HighLowUnique(v, 0, k);
    RevOfLow(Shl(v, k), k);
    RevZero(k);
    ShlZero(n);
  }

  lemma {:induction false} RevZero(n: nat)
    ensures Rev(0, n) == 0
  {
    if n > 0 {
      RevZero(n - 1);
      ShlZero(n - 1);
    }
  }

  lemma RevInjective(v: nat, w: nat, n: nat)
    requires v < Shl(1, n) && w < Shl(1, n) && Rev(v, n) == Rev(w, n)
    ensures v == w
  {
    RevRev(v, n);
    RevRev(w, n);
  }

  // ---------- bit streams ----------

  /** Byte `i` of a file, where reading past the end gives the all-ones value of EOF. */
  function ByteAt(s: seq<Byte>, i: nat): Byte {
    if i < |s| then s[i] else 255
  }

  /** Bit `k` of a file, least significant bit of each byte first. */
  function Bit(s: seq<Byte>, k: nat): (b: nat)
    ensures b < 2
  {
    Shr(ByteAt(s, k / 8), k % 8) % 2
  }

  /** The `n` bits from bit `pos` on as a number, first bit least significant. */
  function Window(s: seq<Byte>, pos: nat, n: nat): (w: nat)
    ensures w < Shl(1, n)
    decreases n
  {
    if n == 0 then 0 else Bit(s, pos) + 2 * Window(s, pos + 1, n - 1)
  }

  /** The same bits as a number, first bit most significant. */
  function Msb(s: seq<Byte>, pos: nat, n: nat): (v: nat)
    ensures v < Shl(1, n)
  {
    if n == 0 then 0 else 2 * Msb(s, pos, n - 1) + Bit(s, pos + n - 1)
  }

  lemma {:induction false} WindowSplit(s: seq<Byte>, pos: nat, m: nat, n: nat)
    ensures Window(s, pos, m + n) == Window(s, pos, m) + Shl(Window(s, pos + m, n), m)
    decreases m
  {
    hide Bit;
    if m > 0 {
      WindowSplit(s, pos + 1, m - 1, n);
    }
  }

  /** Peeking at and dropping the first `m` of `n` buffered bits. */
  lemma WindowPeekDrop(s: seq<Byte>, pos: nat, m: nat, n: nat)
    requires m <= n
    ensures Low(Window(s, pos, n), m) == Window(s, pos, m)
    ensures Shr(Window(s, pos, n), m) == Window(s, pos + m, n - m)
  {
    hide Window, Shl, Shr, Low;
    WindowSplit(s, pos, m, n - m);
    HighLowUnique(Window(s, pos + m, n - m), Window(s, pos, m), m);
  }

  lemma BitOfByte(s: seq<Byte>, i: nat, j: nat)
    requires j < 8
    ensures Bit(s, 8 * i + j) == Shr(ByteAt(s, i), j) % 2
  {
    assert (8 * i + j) / 8 == i && (8 * i + j) % 8 == j;
  }

  lemma {:induction false} ByteWindow(s: seq<Byte>, i: nat, j: nat, n: nat)
    requires j + n == 8
    ensures Window(s, 8 * i + j, n) == Shr(ByteAt(s, i), j)
    decreases n
  {
    if n > 0 {
      ByteWindow(s, i, j + 1, n - 1);
      BitOfByte(s, i, j);
      ShrOnce(ByteAt(s, i), j);
    } else {
      Powers();
      LowSmall(ByteAt(s, i), j);
    }
  }

  lemma ShrOnce(v: nat, k: nat)
    ensures Shr(v, k + 1) == Shr(v, k) / 2
  {
    ShrTwice(v, k, 1);
    assert Shr(Shr(v, k), 1) == Shr(Shr(v, k) / 2, 0);
  }

  /** Appending the next byte above the bits already buffered. */
  lemma WindowByte(s: seq<Byte>, pos: nat, n: nat, i: nat, width: nat)
    requires pos + n == 8 * i && width == 8
    ensures Window(s, pos, n + width) == Window(s, pos, n) + Shl(ByteAt(s, i), n)
  {
    hide Window, Bit, ByteAt, Shl;
    WindowSplit(s, pos, n, width);
    ByteWindow(s, i, 0, width);
  }

  /** A window is the reversal of the value read most significant bit first. */
  lemma {:induction false} WindowIsRevMsb(s: seq<Byte>, pos: nat, n: nat)
    ensures Window(s, pos, n) == Rev(Msb(s, pos, n), n)
  {
    hide Bit, Window, Msb, Shl, Rev;
    if n > 0 {
      WindowIsRevMsb(s, pos, n - 1);
      WindowSplit(s, pos, n - 1, 1);
      OneBitWindow(s, pos + n - 1);
      MsbLast(s, pos, n);
      RevStep(Msb(s, pos, n), n);
    } else {
      NoBits(s, pos);
    }
  }

  lemma NoBits(s: seq<Byte>, pos: nat)
    ensures Window(s, pos, 0) == Rev(Msb(s, pos, 0), 0)
  {}

  lemma MsbLast(s: seq<Byte>, pos: nat, n: nat)
    requires n > 0
    ensures Msb(s, pos, n) / 2 == Msb(s, pos, n - 1) && Msb(s, pos, n) % 2 == Bit(s, pos + n - 1)
  {
    hide Bit;
  }

  lemma OneBitWindow(s: seq<Byte>, pos: nat)
    ensures Window(s, pos, 1) == Bit(s, pos)
  {
    assert Window(s, pos + 1, 0) == 0;
    hide Bit;
  }

  /** Windows inside a common prefix agree. */
  lemma {:induction false} WindowPrefix(s: seq<Byte>, t: seq<Byte>, pos: nat, n: nat)
    requires t <= s && pos + n <= 8 * |t|
    ensures Window(s, pos, n) == Window(t, pos, n)
    decreases n
  {
    if n > 0 {
      WindowPrefix(s, t, pos + 1, n - 1);
      assert pos / 8 < |t|;
    }
  }
}
