/** A seventeen-byte stream with a dynamic header that uses runs of all three kinds, and five bytes of
    output: two literals and a match of length 3 and distance 2. */
module DynamicExample {
  import opened Bits
  import opened Wrappers
  import opened Huffman
  import opened Rfc1951
  import opened FixedCodes
  import opened CodeTable
  import opened BitReader
  import opened Inflate
  import InflateExample
  import MatchExample

  const STREAM: seq<Byte> :=
    [0x15, 0x83, 0xa7, 0x14, 0x00, 0x00, 0x00, 0x44, 0xd3, 0x0d, 0x7f, 0xe2, 0xff, 0xdf, 0x1f, 0xa9, 0x02]

  lemma StreamBytes()
    ensures |STREAM| == 17
    ensures STREAM[0] == 0x15 && STREAM[1] == 0x83 && STREAM[2] == 0xa7 && STREAM[3] == 0x14 && STREAM[4] == 0x00
    ensures STREAM[5] == 0x00 && STREAM[6] == 0x00 && STREAM[7] == 0x44 && STREAM[8] == 0xd3 && STREAM[9] == 0x0d
    ensures STREAM[10] == 0x7f && STREAM[11] == 0xe2 && STREAM[12] == 0xff && STREAM[13] == 0xdf
    ensures STREAM[14] == 0x1f && STREAM[15] == 0xa9 && STREAM[16] == 0x02
  {}

  lemma TypeAndCounts()
    ensures Take(STREAM, 0, 3) == Some((5, 3)) && ReadCounts(STREAM, 3) == Some((259, 4, 16, 17))
  {
    Powers();
    hide Window, STREAM, Shl;
    StreamBytes();
    InflateExample.TwoBytes(STREAM, 0, 0, 3, 1, 8);
    InflateExample.TwoBytes(STREAM, 0, 3, 5, 8, 32);
    InflateExample.TwoBytes(STREAM, 1, 0, 5, 1, 32);
    InflateExample.TwoBytes(STREAM, 1, 5, 4, 32, 16);
  }

  // ---------- the code-length code: 18 has one bit, 17 two, 16 three, 3 four, 0 and 2 five ----------

  /** The length of the `i`-th code-length code, in the order of the header. */
  function NthLength(i: nat): nat {
    if i < 3 then 3 - i else if i == 3 || i == 15 then 5 else if i == 13 then 4 else 0
  }

  lemma NthBits(i: nat)
    requires i < 16
    ensures Take(STREAM, 17 + 3 * i, 3) == Some((NthLength(i), 20 + 3 * i))
  {
    Powers();
    hide Window, STREAM, Shl;
    StreamBytes();
    var b, k := (17 + 3 * i) / 8, (17 + 3 * i) % 8;
    InflateExample.ThreeBits(STREAM, b, k, Shl(1, k));
    StreamThree(b, k, i);
  }

  lemma StreamThree(b: nat, k: nat, i: nat)
    requires i < 16 && 8 * b + k == 17 + 3 * i && k < 8
    ensures b < 16 && (STREAM[b] + 256 * STREAM[b + 1]) / Shl(1, k) % 8 == NthLength(i)
  {
    hide STREAM;
    if i < 4 {
      FirstThrees(b, k, i);
    } else if i < 13 {
      ZeroThrees(b, k, i);
    } else {
      LastThrees(b, k, i);
    }
  }

  lemma FirstThrees(b: nat, k: nat, i: nat)
    requires i < 4 && 8 * b + k == 17 + 3 * i && k < 8
    ensures b < 16 && (STREAM[b] + 256 * STREAM[b + 1]) / Shl(1, k) % 8 == NthLength(i)
  {
    Powers();
    hide STREAM;
    StreamBytes();
  }

  lemma ZeroThrees(b: nat, k: nat, i: nat)
    requires 4 <= i < 13 && 8 * b + k == 17 + 3 * i && k < 8
    ensures b < 16 && (STREAM[b] + 256 * STREAM[b + 1]) / Shl(1, k) % 8 == NthLength(i)
  {
    Powers();
    hide STREAM;
    StreamBytes();
  }

  lemma LastThrees(b: nat, k: nat, i: nat)
    requires 13 <= i < 16 && 8 * b + k == 17 + 3 * i && k < 8
    ensures b < 16 && (STREAM[b] + 256 * STREAM[b + 1]) / Shl(1, k) % 8 == NthLength(i)
  {
    Powers();
    hide STREAM;
    StreamBytes();
  }

  /** The lengths of the code-length codes after the first `i` of them have been read. */
  function LengthsAt(i: nat): seq<nat> {
    seq(19, (k: nat) =>
      if k >= 16 && i > k - 16 then 19 - k
      else if (k == 0 && i > 3) || (k == 2 && i > 15) then 5 else if k == 3 && i > 13 then 4 else 0)
  }

  lemma LengthsBounds(i: nat)
    ensures |LengthsAt(i)| == 19 && forall k :: 0 <= k < 19 ==> LengthsAt(i)[k] <= 7
  {}

  lemma NextLength(i: nat)
    requires i < 16
    ensures |CODE_LENGTH_ORDER| == 19 && CODE_LENGTH_ORDER[i] < 19
    ensures LengthsAt(i)[CODE_LENGTH_ORDER[i] := NthLength(i)] == LengthsAt(i + 1)
  {}

  lemma {:induction false} CodeLengths(i: nat)
    requires i <= 16
    ensures CodeLengthLengths(STREAM, 17 + 3 * i, 16, i, LengthsAt(i)) == Some((LengthsAt(16), 65))
    decreases 16 - i
  {
    hide STREAM, CODE_LENGTH_ORDER, Take, LengthsAt;
    StreamBytes();
    LengthsBounds(i);
    if i < 16 {
      CodeLengths(i + 1);
      NthBits(i);
      NextLength(i);
      CodeLengthLengthsStep(STREAM, 17 + 3 * i, 16, i, LengthsAt(i), NthLength(i), 20 + 3 * i);
    }
  }

  function ClLength(k: nat): nat
    requires k < 19
  {
    if k >= 16 then 19 - k else if k == 0 || k == 2 then 5 else if k == 3 then 4 else 0
  }

  function Cl(): Lengths {
    seq(19, (k: nat) requires k < 19 => ClLength(k))
  }

  lemma {:induction false} CountCl(b: nat, n: nat)
    requires b > 0 && n <= 19
    ensures Count(Cl(), b, n) ==
            if b <= 3 then (if n > 19 - b then 1 else 0)
            else if b == 4 then (if n > 3 then 1 else 0)
            else if b == 5 then (if n > 2 then 2 else if n > 0 then 1 else 0) else 0
  {
    if n > 0 {
      CountCl(b, n - 1);
    }
  }

  lemma ClSize()
    ensures |Cl()| == 19 && forall k :: 0 <= k < 19 ==> Cl()[k] == ClLength(k)
  {}

  lemma {:induction false} UsedCl(b: nat)
    requires b <= MAX_BITS
    ensures Used(Cl(), b) ==
            if b == 0 then 0 else if b == 1 then 0x4000 else if b == 2 then 0x6000 else if b == 3 then 0x7000
            else if b == 4 then 0x7800 else 0x8000
  {
    hide Cl;
    if b > 0 {
      UsedCl(b - 1);
      ClSize();
      CountCl(b, 19);
      UsedStep(b);
    }
  }

  /** The space that a few codes of `b` bits take. */
  lemma UsedStep(b: nat)
    requires 1 <= b <= MAX_BITS
    ensures Shl(0, MAX_BITS - b) == 0
    ensures b == 1 ==> Shl(1, MAX_BITS - b) == 0x4000
    ensures b == 2 ==> Shl(1, MAX_BITS - b) == 0x2000 && Shl(2, MAX_BITS - b) == 0x4000
                       && Shl(4, MAX_BITS - b) == 0x8000
    ensures b == 3 ==> Shl(1, MAX_BITS - b) == 0x1000 && Shl(4, MAX_BITS - b) == 0x4000
    ensures b == 4 ==> Shl(1, MAX_BITS - b) == 0x800
    ensures b == 5 ==> Shl(2, MAX_BITS - b) == 0x800
  {
    LargePowers(11, 12, 14);
    ShlZero(MAX_BITS - b);
    var two, four := Shl(1, 1), Shl(1, 2);
    assert two == 2 && four == 4 by { Powers(); }
    ShlTwice(1, 1, MAX_BITS - b);
    ShlTwice(1, 2, MAX_BITS - b);
    hide Shl;
  }

  lemma LargePowers(p: nat, q: nat, r: nat)
    requires p == 11 && q == 12 && r == 14
    ensures Shl(1, 10) == 0x400 && Shl(1, p) == 0x800 && Shl(1, q) == 0x1000 && Shl(1, 13) == 0x2000
    ensures Shl(1, r) == 0x4000 && Shl(1, 15) == 0x8000
  {
    Powers();
    assert Shl(1, p) == 2 * Shl(1, 10) && Shl(1, q) == 2 * Shl(1, p) && Shl(1, r) == 2 * Shl(1, 13);
    hide Shl;
  }

  lemma ClComplete()
    ensures !Oversubscribed(Cl())
  {
    hide Cl;
    UsedCl(MAX_BITS);
    Powers();
  }

  /** The codes follow from the order of the lengths alone. */
  lemma ClCodes()
    ensures Code(Cl(), 18) == 0 && Code(Cl(), 17) == 2 && Code(Cl(), 16) == 6 && Code(Cl(), 3) == 14
    ensures Code(Cl(), 0) == 30 && Code(Cl(), 2) == 31
  {
    hide Cl, Code, Shl;
    ClSize();
    ShortestCode(Cl(), 18);
    LongerCodesFollow(Cl(), 18, 17);
    Doubled(1);
    LongerCodesFollow(Cl(), 17, 16);
    Doubled(3);
    LongerCodesFollow(Cl(), 16, 3);
    Doubled(7);
    LongerCodesFollow(Cl(), 3, 0);
    Doubled(15);
    CodesConsecutive(Cl(), 0, 2);
  }

  lemma Doubled(v: nat)
    ensures Shl(v, 1) == 2 * v
  {
    assert Shl(v, 0) == v;
  }

  /** The codes of the code-length code, reversed. */
  lemma RevCl(one: nat, two: nat, three: nat, four: nat, five: nat)
    requires one == 1 && two == 2 && three == 3 && four == 4 && five == 5
    ensures Rev(0, one) == 0 && Rev(2, two) == 1 && Rev(6, three) == 3 && Rev(14, four) == 7
    ensures Rev(30, five) == 15 && Rev(31, five) == 31
  {
    Powers();
    MatchExample.RevZero(1);
    MatchExample.RevNext(30, 5);
    MatchExample.RevNext(31, 5);
    MatchExample.RevNext(14, 4);
    MatchExample.RevNext(15, 4);
    MatchExample.RevNext(6, 3);
    MatchExample.RevNext(7, 3);
    MatchExample.RevNext(2, 2);
    MatchExample.RevNext(3, 2);
    MatchExample.RevNext(1, 1);
    hide Rev, Shl;
    assert Rev(0, 0) == 0 by { MatchExample.RevZero(0); }
  }

  lemma ClSymbol(sym: nat, i: nat, k: nat, n: nat, kk: nat, nn: nat)
    requires sym < 19 && ClLength(sym) == n >= 1 && i + 1 < 17 && k < 8 && kk == Shl(1, k) && nn == Shl(1, n)
    requires (ByteAt(STREAM, i) + 256 * ByteAt(STREAM, i + 1)) / kk % nn == Rev(Code(Cl(), sym), n)
    ensures Decode(Cl(), STREAM, 8 * i + k) == Some((sym, 8 * i + k + n))
  {
    hide STREAM, Code, Cl, Rev, Shl, Oversubscribed, Decode, ByteAt;
    StreamBytes();
    ClSize();
    ClComplete();
    MatchExample.DecodeBits(STREAM, Cl(), sym, i, k, n, kk, nn);
  }

  /** The symbols of the header, with the runs between them. */
  lemma FirstCodes()
    ensures Decode(Cl(), STREAM, 65) == Some((17, 67)) && Decode(Cl(), STREAM, 70) == Some((3, 74))
    ensures Decode(Cl(), STREAM, 74) == Some((16, 77)) && Decode(Cl(), STREAM, 79) == Some((18, 80))
    ensures Decode(Cl(), STREAM, 87) == Some((18, 88))
  {
    Powers();
    hide STREAM, Code, Cl, Rev, Shl, Oversubscribed, Decode;
    StreamBytes();
    ClCodes();
    RevCl(1, 2, 3, 4, 5);
    ClSymbol(17, 8, 1, 2, 2, 4);
    ClSymbol(3, 8, 6, 4, 64, 16);
    ClSymbol(16, 9, 2, 3, 4, 8);
    ClSymbol(18, 9, 7, 1, 128, 2);
    ClSymbol(18, 10, 7, 1, 128, 2);
  }

  lemma LastCodes()
    ensures Decode(Cl(), STREAM, 95) == Some((2, 100)) && Decode(Cl(), STREAM, 100) == Some((2, 105))
    ensures Decode(Cl(), STREAM, 105) == Some((0, 110)) && Decode(Cl(), STREAM, 110) == Some((2, 115))
    ensures Decode(Cl(), STREAM, 115) == Some((16, 118))
  {
    Powers();
    hide STREAM, Code, Cl, Rev, Shl, Oversubscribed, Decode;
    StreamBytes();
    ClCodes();
    RevCl(1, 2, 3, 4, 5);
    ClSymbol(2, 11, 7, 5, 128, 32);
    ClSymbol(2, 12, 4, 5, 16, 32);
    ClSymbol(0, 13, 1, 5, 2, 32);
    ClSymbol(2, 13, 6, 5, 64, 32);
    ClSymbol(16, 14, 3, 3, 8, 8);
  }

  lemma RunCounts()
    ensures Take(STREAM, 67, 3) == Some((2, 70)) && Take(STREAM, 77, 2) == Some((0, 79))
    ensures Take(STREAM, 80, 7) == Some((127, 87)) && Take(STREAM, 88, 7) == Some((98, 95))
    ensures Take(STREAM, 118, 2) == Some((0, 120))
  {
    Powers();
    hide Window, STREAM, Shl;
    StreamBytes();
    InflateExample.TwoBytes(STREAM, 8, 3, 3, 8, 8);
    InflateExample.TwoBytes(STREAM, 9, 5, 2, 32, 4);
    InflateExample.TwoBytes(STREAM, 10, 0, 7, 1, 128);
    InflateExample.TwoBytes(STREAM, 11, 0, 7, 1, 128);
    InflateExample.TwoBytes(STREAM, 14, 6, 2, 64, 4);
  }

  // ---------- the codes: literals 5 to 8, end of block, and length 3; and four distances ----------

  function LitLength(k: nat): nat {
    if 5 <= k < 9 then 3 else if k == 256 || k == 257 then 2 else 0
  }

  function Lit(): Lengths {
    seq(259, (k: nat) => LitLength(k))
  }

  function Dist(): Lengths {
    seq(4, (k: nat) => 2)
  }

  function FirstLengths(): seq<nat> {
    Repeat(0, 5) + [3] + Repeat(3, 3) + Repeat(0, 138) + Repeat(0, 109)
  }

  lemma TheFirstLengths()
    ensures ReadLengths(Cl(), STREAM, 263, LengthList([], 65, 0))
         == ReadLengths(Cl(), STREAM, 263, LengthList(FirstLengths(), 95, 9))
  {
    hide STREAM, Decode, Take, ReadLengths, Cl;
    FirstCodes();
    RunCounts();
    var l0 := LengthList([], 65, 0);
    var l1 := LengthList(Repeat(0, 5), 70, 0);
    var l2 := LengthList(l1.lens + [3], 74, 6);
    var l3 := LengthList(l2.lens + Repeat(3, 3), 79, 9);
    var l4 := LengthList(l3.lens + Repeat(0, 138), 87, 9);
    var l5 := LengthList(l4.lens + Repeat(0, 109), 95, 9);
    assert NextLengths(Cl(), STREAM, l0) == Some(l1) by { assert [] + Repeat(0, 5) == Repeat(0, 5); }
    assert NextLengths(Cl(), STREAM, l1) == Some(l2);
    assert NextLengths(Cl(), STREAM, l2) == Some(l3);
    assert NextLengths(Cl(), STREAM, l3) == Some(l4);
    assert NextLengths(Cl(), STREAM, l4) == Some(l5);
    hide NextLengths;
    InflateExample.ReadMore(Cl(), STREAM, 263, l0, l1);
    InflateExample.ReadMore(Cl(), STREAM, 263, l1, l2);
    InflateExample.ReadMore(Cl(), STREAM, 263, l2, l3);
    InflateExample.ReadMore(Cl(), STREAM, 263, l3, l4);
    InflateExample.ReadMore(Cl(), STREAM, 263, l4, l5);
  }

  /** The code lengths as the runs of the header give them. */
  lemma LitPieces()
    ensures |FirstLengths()| == 256 && (forall k :: 0 <= k < 256 ==> FirstLengths()[k] <= 3)
    ensures FirstLengths() + [2] + [2] + [0] == Lit() && Lit() + [2] + Repeat(2, 3) == Lit() + Dist()
    ensures |Lit()| == 259
  {}

  lemma TheLengths()
    ensures ReadLengths(Cl(), STREAM, 263, LengthList([], 65, 0)) == Some(LengthList(Lit() + Dist(), 120, 263))
  {
    hide STREAM, Decode, Take, ReadLengths, Cl, Lit, Dist, FirstLengths;
    LastCodes();
    RunCounts();
    LitPieces();
    TheFirstLengths();
    var l0 := LengthList(FirstLengths(), 95, 9);
    var l1 := LengthList(l0.lens + [2], 100, 257);
    var l2 := LengthList(l1.lens + [2], 105, 258);
    var l3 := LengthList(Lit(), 110, 259);
    var l4 := LengthList(Lit() + [2], 115, 260);
    var l5 := LengthList(Lit() + Dist(), 120, 263);
    assert NextLengths(Cl(), STREAM, l0) == Some(l1);
    assert NextLengths(Cl(), STREAM, l1) == Some(l2);
    assert NextLengths(Cl(), STREAM, l2) == Some(l3);
    assert NextLengths(Cl(), STREAM, l3) == Some(l4);
    assert NextLengths(Cl(), STREAM, l4) == Some(l5);
    hide NextLengths;
    InflateExample.ReadMore(Cl(), STREAM, 263, l0, l1);
    InflateExample.ReadMore(Cl(), STREAM, 263, l1, l2);
    InflateExample.ReadMore(Cl(), STREAM, 263, l2, l3);
    InflateExample.ReadMore(Cl(), STREAM, 263, l3, l4);
    InflateExample.ReadMore(Cl(), STREAM, 263, l4, l5);
    ReadLengthsDone(Cl(), STREAM, 263, l5);
  }

  function TheHeader(): (h: Header) {
    Header(259, 4, LengthList(Lit() + Dist(), 120, 263))
  }

  lemma HeaderHere()
    ensures ReadHeader(STREAM, 3) == Some(TheHeader())
  {
    hide STREAM, ReadCounts, CodeLengthLengths, ReadLengths, Oversubscribed, Lit, Dist, Cl, LengthsAt;
    TypeAndCounts();
    CodeLengths(0);
    assert LengthsAt(0) == Repeat(0, 19) && LengthsAt(16) == Cl() by { AllLengths(); }
    ClComplete();
    TheLengths();
  }

  lemma AllLengths()
    ensures LengthsAt(0) == Repeat(0, 19) && LengthsAt(16) == Cl()
  {}

  // ---------- the symbols ----------

  lemma {:induction false} CountLit(b: nat, n: nat)
    requires b > 0 && n <= 259
    ensures Count(Lit(), b, n) ==
            if b == 2 then (if n > 257 then 2 else if n > 256 then 1 else 0)
            else if b == 3 then (if n > 8 then 4 else if n > 5 then n - 5 else 0) else 0
  {
    if n > 0 {
      CountLit(b, n - 1);
    }
  }

  lemma LitSize()
    ensures |Lit()| == 259 && forall k :: 0 <= k < 259 ==> Lit()[k] == LitLength(k)
  {}

  lemma {:induction false} UsedLit(b: nat)
    requires b <= MAX_BITS
    ensures Used(Lit(), b) == if b < 2 then 0 else if b == 2 then 0x4000 else 0x8000
  {
    hide Lit;
    if b > 0 {
      UsedLit(b - 1);
      LitSize();
      CountLit(b, 259);
      UsedStep(b);
    }
  }

  lemma {:induction false} CountDist(b: nat, n: nat)
    requires b > 0 && n <= 4
    ensures Count(Dist(), b, n) == if b == 2 then n else 0
  {
    if n > 0 {
      CountDist(b, n - 1);
    }
  }

  lemma DistSize()
    ensures |Dist()| == 4 && forall k :: 0 <= k < 4 ==> Dist()[k] == 2
  {}

  lemma {:induction false} UsedDist(b: nat)
    requires b <= MAX_BITS
    ensures Used(Dist(), b) == if b < 2 then 0 else 0x8000
  {
    hide Dist;
    if b > 0 {
      UsedDist(b - 1);
      DistSize();
      CountDist(b, 4);
      UsedStep(b);
    }
  }

  lemma LitComplete()
    ensures !Oversubscribed(Lit())
  {
    hide Lit;
    UsedLit(MAX_BITS);
    Powers();
  }

  lemma DistComplete()
    ensures !Oversubscribed(Dist())
  {
    hide Dist;
    UsedDist(MAX_BITS);
    Powers();
  }

  lemma NotEmpty()
    ensures !AllZero(Lit()) && !AllZero(Dist())
  {
    LitSize();
    DistSize();
    hide Lit, Dist;
    assert Lit()[5] == 3 && Dist()[0] == 2;
  }

  lemma LitCodes()
    ensures Code(Lit(), 256) == 0 && Code(Lit(), 257) == 1 && Code(Lit(), 5) == 4 && Code(Lit(), 6) == 5
  {
    hide Lit, Code, Shl;
    LitSize();
    ShortestCode(Lit(), 256);
    CodesConsecutive(Lit(), 256, 257);
    LongerCodesFollow(Lit(), 257, 5);
    Doubled(2);
    CodesConsecutive(Lit(), 5, 6);
  }

  lemma DistCodes()
    ensures Code(Dist(), 1) == 1
  {
    hide Dist, Code, Shl;
    DistSize();
    ShortestCode(Dist(), 0);
    CodesConsecutive(Dist(), 0, 1);
  }

  /** Codes 4 and 5 of three bits, and 0 and 1 of two, reversed. */
  lemma RevLit(two: nat, three: nat)
    requires two == 2 && three == 3
    ensures Rev(4, three) == 1 && Rev(5, three) == 5 && Rev(0, two) == 0 && Rev(1, two) == 2
  {
    Powers();
    MatchExample.RevZero(1);
    MatchExample.RevZero(2);
    MatchExample.RevNext(4, 3);
    MatchExample.RevNext(5, 3);
    MatchExample.RevNext(2, 2);
    MatchExample.RevNext(1, 2);
    MatchExample.RevNext(1, 1);
    hide Rev, Shl;
    assert Rev(0, 0) == 0 by { MatchExample.RevZero(0); }
  }

  lemma TheSymbols()
    ensures Decode(Lit(), STREAM, 120) == Some((5, 123)) && Decode(Lit(), STREAM, 123) == Some((6, 126))
    ensures Decode(Lit(), STREAM, 126) == Some((257, 128)) && Decode(Lit(), STREAM, 130) == Some((256, 132))
    ensures Decode(Dist(), STREAM, 128) == Some((1, 130))
  {
    Powers();
    hide STREAM, Code, Lit, Dist, Rev, Shl, Oversubscribed, Decode;
    StreamBytes();
    LitSize();
    DistSize();
    LitComplete();
    DistComplete();
    LitCodes();
    DistCodes();
    RevLit(2, 3);
    MatchExample.DecodeBits(STREAM, Lit(), 5, 15, 0, 3, 1, 8);
    MatchExample.DecodeBits(STREAM, Lit(), 6, 15, 3, 3, 8, 8);
    MatchExample.DecodeBits(STREAM, Lit(), 257, 15, 6, 2, 64, 4);
    MatchExample.DecodeBits(STREAM, Dist(), 1, 16, 0, 2, 1, 4);
    MatchExample.DecodeBits(STREAM, Lit(), 256, 16, 2, 2, 4, 4);
  }

  lemma LengthAndDistance()
    ensures ReadLength(STREAM, 128, 257) == Some((3, 128)) && ReadDistance(Dist(), STREAM, 128) == Some((2, 130))
  {
    StreamBytes();
    TheSymbols();
    hide STREAM, Decode, Dist;
    assert LENGTH_BASE[0] == 3 && LENGTH_EXTRA[0] == 0 && DIST_BASE[1] == 2 && DIST_EXTRA[1] == 0;
  }

  lemma Copied()
    ensures CopyMatch([5, 6], 2, 3) == [5, 6, 5, 6, 5]
  {
    var a: Byte, b: Byte := 5, 6;
    assert CopyMatch([a, b, a, b, a], 2, 0) == [a, b, a, b, a];
    assert CopyMatch([a, b, a, b], 2, 1) == [a, b, a, b, a];
    assert CopyMatch([a, b, a], 2, 2) == [a, b, a, b, a];
    assert CopyMatch([a, b], 2, 3) == [a, b, a, b, a];
  }

  lemma BodyHere()
    ensures Symbols(Lit(), Dist(), STREAM, 120, []) == Some((132, [5, 6, 5, 6, 5]))
  {
    hide STREAM, Decode, Lit, Dist, ReadLength, ReadDistance, CopyMatch;
    StreamBytes();
    TheSymbols();
    LengthAndDistance();
    Copied();
    var all := [5, 6, 5, 6, 5];
    assert Symbols(Lit(), Dist(), STREAM, 130, all) == Some((132, all));
    assert Symbols(Lit(), Dist(), STREAM, 126, [5, 6]) == Some((132, all));
    assert [5] + [6] == [5, 6] && [] + [5] == [5];
    assert Symbols(Lit(), Dist(), STREAM, 123, [5]) == Some((132, all));
  }

  lemma HeaderParts()
    ensures var h := TheHeader();
            h.Valid() && h.Lit() == Lit() && h.Dist() == Dist() && |h.lengths.lens| == 263
            && h.hlit == 259 && h.hdist == 4 && h.lengths.pos == 120 && h.lengths.written == 263
  {
    LitSize();
    DistSize();
    hide Lit, Dist;
    assert (Lit() + Dist())[..259] == Lit() && (Lit() + Dist())[259..263] == Dist();
  }

  /** Under either set of rules the stream decodes to 5, 6, 5, 6, 5 and to nothing else. */
  lemma StreamDecodes(rules: Rules, out: seq<Byte>)
    ensures Decompresses(rules, STREAM, out) <==> out == [5, 6, 5, 6, 5]
  {
    hide STREAM, ReadHeader, Symbols, Take, Oversubscribed, Lit, Dist, TheHeader, Stored, AllZero;
    StreamBytes();
    TypeAndCounts();
    HeaderHere();
    HeaderParts();
    LitComplete();
    DistComplete();
    NotEmpty();
    BodyHere();
    var all := [5, 6, 5, 6, 5];
    assert DynamicBody(rules, STREAM, 3, []) == Some((132, all));
    hide DynamicBody;
    assert Block(rules, STREAM, 0, []) == Some(BlockEnd(true, 132, all));
  }
}
