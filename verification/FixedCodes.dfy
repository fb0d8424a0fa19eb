/** The fixed codes of RFC 1951 section 3.2.6: the program decodes them by arithmetic on reversed
    bits, which agrees with canonical decoding from their code lengths. */
module FixedCodes {
  import opened Bits
  import opened Wrappers
  import opened Reverse
  import opened Huffman
  import opened Rfc1951

  // ---------- the literal/length code ----------

  /** How many of the first `n` fixed literal/length codes have `b` bits. */
  function FixedCount(b: nat, n: nat): nat {
    if b == 7 then (if n < 256 then 0 else if n < 280 then n - 256 else 24)
    else if b == 8 then (if n < 144 then n else if n < 280 then 144 else n - 136)
    else if b == 9 then (if n < 144 then 0 else if n < 256 then n - 144 else 112)
    else 0
  }

  lemma {:induction false} CountFixed(b: nat, n: nat)
    requires n <= |FixedLit()|
    ensures Count(FixedLit(), b, n) == FixedCount(b, n)
  {
    if n > 0 {
      CountFixed(b, n - 1);
    }
  }

  lemma {:induction false} NextCodeShort(b: nat)
    requires b <= 7
    ensures NextCode(FixedLit(), b) == 0
  {
    hide FixedLit;
    if b > 1 {
      NextCodeShort(b - 1);
      CountFixed(b - 1, LitCount());
    }
  }

  function LitCount(): (n: nat)
    ensures n == |FixedLit()| == 288
  {
    288
  }

  lemma NextCodes(b7: nat, b8: nat, b9: nat)
    requires b7 == 7 && b8 == 8 && b9 == 9
    ensures NextCode(FixedLit(), b7) == 0 && NextCode(FixedLit(), b8) == 0x30 && NextCode(FixedLit(), b9) == 0x190
  {
    NextCodeShort(b7);
    hide FixedLit, Count;
    CountFixed(b7, LitCount());
    CountFixed(b8, LitCount());
    assert NextCode(FixedLit(), b8) == 2 * (NextCode(FixedLit(), b7) + LengthCount(FixedLit(), b7));
    assert NextCode(FixedLit(), b9) == 2 * (NextCode(FixedLit(), b8) + LengthCount(FixedLit(), b8));
  }

  lemma FixedCode(sym: nat)
    requires sym < |FixedLit()|
    ensures FixedLit()[sym] == FixedLength(sym)
    ensures Code(FixedLit(), sym) ==
            if sym < 144 then 0x30 + sym
            else if sym < 256 then 0x190 + (sym - 144)
            else if sym < 280 then sym - 256
            else 0xc0 + (sym - 280)
  {
    NextCodes(7, 8, 9);
    CountFixed(FixedLength(sym), sym);
    hide NextCode, Count;
  }

  lemma {:induction false} UsedFixed(b: nat)
    requires b <= MAX_BITS
    ensures Used(FixedLit(), b) == if b < 7 then 0 else if b == 7 then 0x1800 else if b == 8 then 0x6400 else 0x8000
  {
    hide FixedLit;
    if b > 0 {
      UsedFixed(b - 1);
      CountFixed(b, LitCount());
      ShlSmall(FixedCount(b, 288), b);
    }
  }

  lemma ShlSmall(v: nat, b: nat)
    requires 1 <= b <= MAX_BITS
    ensures v == 0 ==> Shl(v, MAX_BITS - b) == 0
    ensures b == 7 ==> Shl(v, MAX_BITS - b) == 256 * v
    ensures b == 8 ==> Shl(v, MAX_BITS - b) == 128 * v
    ensures b == 9 ==> Shl(v, MAX_BITS - b) == 64 * v
    ensures b == 5 ==> Shl(v, MAX_BITS - b) == 1024 * v
  {
    ShlZero(MAX_BITS - b);
    ShlBy6(v, 6);
    ShlTwice(v, 6, 1);
    ShlTwice(v, 6, 2);
    ShlTwice(v, 6, 4);
  }

  lemma ShlBy6(v: nat, six: nat)
    requires six == 6
    ensures Shl(v, six) == 64 * v
  {
    ShlBy3(v, 3);
    ShlBy3(8 * v, 3);
    ShlTwice(v, 3, 3);
  }

  lemma ShlBy3(v: nat, three: nat)
    requires three == 3
    ensures Shl(v, three) == 8 * v
  {
    assert Shl(v, three - 2) == 2 * Shl(v, three - 3);
    assert Shl(v, three - 1) == 2 * Shl(v, three - 2);
  }

  lemma FixedLitComplete()
    ensures !Oversubscribed(FixedLit())
  {
    UsedFixed(MAX_BITS);
    Powers();
  }

  /** The literal/length symbol of nine bits, most significant first, and its code length. */
  function FixedSymbol(code: nat): (nat, nat)
    requires code < 0x200
  {
    if code < 0x060 then (0x100 + code / 4, 7)
    else if code < 0x180 then (code / 2 - 0x030, 8)
    else if code < 0x190 then (code / 2 + 0x118 - 0x0c0, 8)
    else (0x90 + code - 0x190, 9)
  }

  lemma {:induction false} MsbPrefix(s: seq<Byte>, pos: nat, n: nat, k: nat)
    ensures Shr(Msb(s, pos, n + k), k) == Msb(s, pos, n)
  {
    hide Bit;
    if k > 0 {
      MsbPrefix(s, pos, n, k - 1);
    }
  }

  lemma FixedSymbolCode(code: nat)
    requires code < 0x200
    ensures var (sym, len) := FixedSymbol(code);
            sym < 288 && len == FixedLength(sym) && Code(FixedLit(), sym)
              == code / (if len == 7 then 4 else if len == 8 then 2 else 1)
  {
    hide Code;
    FixedCode(FixedSymbol(code).0);
  }

  /** The symbol found by arithmetic is the one whose code starts the bits. */
  lemma FixedSymbolMatches(s: seq<Byte>, pos: nat, nine: nat)
    requires nine == 9
    ensures Msb(s, pos, nine) < 0x200
    ensures var (sym, len) := FixedSymbol(Msb(s, pos, nine));
            sym < 288 && FixedLit()[sym] == len && Matches(FixedLit(), sym, Window(s, pos, MAX_BITS))
  {
    hide Window, Msb, Code, Matches, Oversubscribed, FixedLit;
    Powers();
    var code := Msb(s, pos, nine);
    var (sym, len) := FixedSymbol(code);
    FixedSymbolCode(code);
    assert sym < LitCount();
    FixedCode(sym);
    FixedLitComplete();
    MsbPrefix(s, pos, len, nine - len);
    ShrSmall(code, nine - len);
    MatchIsCode(FixedLit(), s, pos, sym);
  }

  lemma ShrSmall(v: nat, k: nat)
    ensures k == 0 ==> Shr(v, k) == v
    ensures k == 1 ==> Shr(v, k) == v / 2
    ensures k == 2 ==> Shr(v, k) == v / 4
  {
    if k == 1 {
      assert Shr(v / 2, 0) == v / 2;
    } else if k == 2 {
      assert Shr(v / 2 / 2, 0) == v / 4;
      assert Shr(v / 2, 1) == v / 4;
    }
  }

  /** Reversing the next nine bits gives them most significant first. */
  lemma ReversedWindow9(s: seq<Byte>, pos: nat)
    ensures Window(s, pos, 9) < 0x200 && Reverse9Bits(Window(s, pos, 9)) == Msb(s, pos, 9)
  {
    Powers();
    hide Window, Msb, Rev, Reverse9Bits, Shl;
    WindowIsRevMsb(s, pos, 9);
    Reverse9IsRev(Window(s, pos, 9));
    RevRev(Msb(s, pos, 9), 9);
  }

  // ---------- the distance code ----------

  lemma {:induction false} CountDist(b: nat, n: nat)
    requires n <= 32
    ensures Count(FixedDist(), b, n) == if b == 5 then n else 0
  {
    if n > 0 {
      CountDist(b, n - 1);
    }
  }

  lemma {:induction false} NextCodeDist(b: nat)
    requires b <= 5
    ensures NextCode(FixedDist(), b) == 0
  {
    if b > 1 {
      NextCodeDist(b - 1);
      CountDist(b - 1, 32);
    }
  }

  /** Every distance symbol is its own five-bit code. */
  lemma DistCode(sym: nat)
    requires sym < 32
    ensures FixedDist()[sym] == 5 && Code(FixedDist(), sym) == sym
  {
    NextCodeDist(5);
    CountDist(5, sym);
    hide NextCode, Count;
  }

  lemma {:induction false} UsedDist(b: nat)
    requires b <= MAX_BITS
    ensures Used(FixedDist(), b) == if b < 5 then 0 else 0x8000
  {
    hide FixedDist;
    if b > 0 {
      UsedDist(b - 1);
      CountDist(b, 32);
      ShlSmall(if b == 5 then 32 else 0, b);
      DistSize();
    }
  }

  lemma DistSize()
    ensures |FixedDist()| == 32
  {}

  lemma FixedDistComplete()
    ensures !Oversubscribed(FixedDist())
  {
    UsedDist(MAX_BITS);
    Powers();
  }

  lemma ReversedWindow5(s: seq<Byte>, pos: nat, four: nat)
    requires four == 4
    ensures Window(s, pos, four + 1) < 0x20
    ensures Reverse5Bits(Window(s, pos, four + 1)) == Msb(s, pos, four + 1)
  {
    Powers();
    hide Window, Msb, Rev, Shl;
    WindowIsRevMsb(s, pos, four + 1);
    Reverse5IsRev(Window(s, pos, four + 1), four);
    RevRev(Msb(s, pos, four + 1), four + 1);
  }

  lemma FixedDistMatches(s: seq<Byte>, pos: nat, five: nat)
    requires five == 5
    ensures Msb(s, pos, five) < 32 && FixedDist()[Msb(s, pos, five)] == 5
    ensures Matches(FixedDist(), Msb(s, pos, five), Window(s, pos, MAX_BITS))
  {
    Powers();
    hide Window, Msb, Code, Matches, Oversubscribed, Shl;
    DistCode(Msb(s, pos, five));
    FixedDistComplete();
    MatchIsCode(FixedDist(), s, pos, Msb(s, pos, five));
  }
}
