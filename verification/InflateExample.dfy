/** A twelve-byte standard stream, of no output, that the program rejects: its one block is dynamic
    and names no distance, because it uses none. */
module InflateExample {
  import opened Bits
  import opened Wrappers
  import opened Reverse
  import opened Huffman
  import opened HuffmanTable
  import opened Rfc1951
  import opened FixedCodes
  import opened CodeTable
  import opened BitReader
  import opened Inflate
  import opened InflateRules

  const STREAM: seq<Byte> := [0x05, 0xc0, 0x81, 0x08, 0x00, 0x00, 0x00, 0x00, 0x20, 0x7f, 0xeb, 0x03]

  /** Bits of two adjacent bytes. */
  lemma TwoBytes(s: seq<Byte>, i: nat, k: nat, n: nat, kk: nat, nn: nat)
    requires k + n <= 16 && kk == Shl(1, k) && nn == Shl(1, n)
    ensures Window(s, 8 * i + k, n) == (ByteAt(s, i) + 256 * ByteAt(s, i + 1)) / kk % nn
  {
    hide Window, Shr, Low, ByteAt;
    var eight := 8;
    var v := ByteAt(s, i) + 256 * ByteAt(s, i + 1);
    assert Window(s, 8 * i, 16) == v by {
      WindowSplit(s, 8 * i, eight, eight);
      ByteWindow(s, i, 0, eight);
      ByteWindow(s, i + 1, 0, eight);
      Shl8(ByteAt(s, i + 1), eight);
      assert Shr(ByteAt(s, i), 0) == ByteAt(s, i) && Shr(ByteAt(s, i + 1), 0) == ByteAt(s, i + 1) by {
        ShrNone(ByteAt(s, i));
        ShrNone(ByteAt(s, i + 1));
      }
    }
    hide Shl;
    WindowPeekDrop(s, 8 * i, k, 16);
    WindowPeekDrop(s, 8 * i + k, n, 16 - k);
    ShrIsDiv(v, k, kk);
    ShrIsDiv(Shr(v, k), n, nn);
  }

  lemma ShrNone(v: nat)
    ensures Shr(v, 0) == v
  {}

  lemma Shl8(v: nat, eight: nat)
    requires eight == 8
    ensures Shl(v, eight) == 256 * v
  {
    ShlBy6(v, 6);
    ShlTwice(v, 6, 2);
    assert Shl(64 * v, 1) == 2 * Shl(64 * v, 0);
    assert Shl(64 * v, 2) == 2 * Shl(64 * v, 1);
  }

  /** Three bits at a position. */
  lemma ThreeBits(s: seq<Byte>, i: nat, k: nat, kk: nat)
    requires i + 1 < |s| && k <= 8 && kk == Shl(1, k)
    ensures Window(s, 8 * i + k, 3) == (s[i] + 256 * s[i + 1]) / kk % 8
  {
    Powers();
    hide Window;
    TwoBytes(s, i, k, 3, kk, 8);
  }

  lemma StreamBytes()
    ensures |STREAM| == 12
    ensures STREAM[0] == 0x05 && STREAM[1] == 0xc0 && STREAM[2] == 0x81 && STREAM[3] == 0x08 && STREAM[4] == 0x00
    ensures STREAM[5] == 0x00 && STREAM[6] == 0x00 && STREAM[7] == 0x00 && STREAM[8] == 0x20 && STREAM[9] == 0x7f
    ensures STREAM[10] == 0xeb && STREAM[11] == 0x03
  {}

  lemma TypeBits()
    ensures Take(STREAM, 0, 3) == Some((5, 3))
  {
    Powers();
    hide Window, STREAM;
    StreamBytes();
    ThreeBits(STREAM, 0, 0, 1);
  }

  lemma Counts()
    ensures ReadCounts(STREAM, 3) == Some((257, 1, 18, 17))
  {
    Powers();
    hide Window, STREAM, Shl;
    StreamBytes();
    TwoBytes(STREAM, 0, 3, 5, 8, 32);
    TwoBytes(STREAM, 1, 0, 5, 1, 32);
    TwoBytes(STREAM, 1, 5, 4, 32, 16);
  }

  /** The length of the `i`-th code-length code, in the order of the header. */
  function NthLength(i: nat): nat {
    if i == 2 then 1 else if i == 3 || i == 17 then 2 else 0
  }

  lemma NthBits(i: nat)
    requires i < 18
    ensures Take(STREAM, 17 + 3 * i, 3) == Some((NthLength(i), 20 + 3 * i))
  {
    Powers();
    hide Window, STREAM, Shl;
    StreamBytes();
    var p := 17 + 3 * i;
    var b, k := p / 8, p % 8;
    ThreeBits(STREAM, b, k, Shl(1, k));
    StreamThree(b, k, i);
  }

  lemma StreamThree(b: nat, k: nat, i: nat)
    requires i < 18 && 8 * b + k == 17 + 3 * i && k < 8
    ensures b < 11 && (STREAM[b] + 256 * STREAM[b + 1]) / Shl(1, k) % 8 == NthLength(i)
  {
    hide STREAM;
    if i < 4 {
      FirstThrees(b, k, i);
    } else {
      LastThrees(b, k, i);
    }
  }

  lemma FirstThrees(b: nat, k: nat, i: nat)
    requires i < 4 && 8 * b + k == 17 + 3 * i && k < 8
    ensures (STREAM[b] + 256 * STREAM[b + 1]) / Shl(1, k) % 8 == NthLength(i)
  {
    Powers();
    hide STREAM;
    StreamBytes();
  }

  lemma LastThrees(b: nat, k: nat, i: nat)
    requires 4 <= i < 18 && 8 * b + k == 17 + 3 * i && k < 8
    ensures b < 11 && (STREAM[b] + 256 * STREAM[b + 1]) / Shl(1, k) % 8 == NthLength(i)
  {
    Powers();
    hide STREAM;
    StreamBytes();
  }

  /** The lengths of the code-length codes after the first `i` of them have been read. */
  function LengthsAt(i: nat): seq<nat> {
    seq(19, (k: nat) => if k == 18 && i > 2 then 1 else if (k == 0 && i > 3) || (k == 1 && i > 17) then 2 else 0)
  }

  lemma NextLength(i: nat)
    requires i < 18
    ensures |CODE_LENGTH_ORDER| == 19 && CODE_LENGTH_ORDER[i] < 19
    ensures LengthsAt(i)[CODE_LENGTH_ORDER[i] := NthLength(i)] == LengthsAt(i + 1)
  {}

  lemma {:induction false} CodeLengths(i: nat)
    requires i <= 18
    ensures CodeLengthLengths(STREAM, 17 + 3 * i, 18, i, LengthsAt(i)) == Some((LengthsAt(18), 71))
    decreases 18 - i
  {
    hide STREAM, CODE_LENGTH_ORDER, Take, LengthsAt;
    StreamBytes();
    LengthsBounds(i);
    if i < 18 {
      CodeLengths(i + 1);
      NthBits(i);
      NextLength(i);
      CodeLengthLengthsStep(STREAM, 17 + 3 * i, 18, i, LengthsAt(i), NthLength(i), 20 + 3 * i);
    }
  }

  lemma LengthsBounds(i: nat)
    ensures |LengthsAt(i)| == 19 && forall k :: 0 <= k < 19 ==> LengthsAt(i)[k] <= 7
  {}

  // ---------- the code-length code: 18 is 0, 0 is 10, 1 is 11 ----------

  function Cl(): Lengths {
    seq(19, (k: nat) => if k == 18 then 1 else if k < 2 then 2 else 0)
  }

  function ClCount(b: nat, n: nat): nat {
    if b == 1 then (if n > 18 then 1 else 0) else if b == 2 then (if n < 2 then n else 2) else 0
  }

  lemma {:induction false} CountCl(b: nat, n: nat)
    requires b > 0 && n <= 19
    ensures Count(Cl(), b, n) == ClCount(b, n)
  {
    if n > 0 {
      CountCl(b, n - 1);
    }
  }

  lemma {:induction false} UsedCl(b: nat)
    requires b <= MAX_BITS
    ensures Used(Cl(), b) == if b == 0 then 0 else if b == 1 then 0x4000 else 0x8000
  {
    hide Cl;
    if b > 0 {
      UsedCl(b - 1);
      ClSize();
      CountCl(b, 19);
      Powers();
      ShlZero(MAX_BITS - b);
      ShlTwice(1, 1, 13);
    }
  }

  lemma ClSize()
    ensures |Cl()| == 19
  {}

  lemma ClComplete()
    ensures !Oversubscribed(Cl())
  {
    hide Cl;
    UsedCl(MAX_BITS);
    Powers();
  }

  lemma ClCode18()
    ensures Cl()[18] == 1 && Code(Cl(), 18) == 0
  {
    CountCl(1, 18);
    hide Count;
  }

  lemma ClCodes()
    ensures Cl()[0] == 2 && Cl()[1] == 2 && Code(Cl(), 0) == 2 && Code(Cl(), 1) == 3
  {
    CountCl(1, 19);
    CountCl(2, 0);
    CountCl(2, 1);
    ClSize();
    assert NextCode(Cl(), 2) == 2 by {
      hide Count, Cl;
      ClSize();
    }
    hide Count, NextCode;
  }

  /** Decoding a symbol of a code is finding its bits. */
  lemma DecodeHere(s: seq<Byte>, lens: Lengths, pos: nat, sym: nat)
    requires !Oversubscribed(lens) && sym < |lens| && lens[sym] >= 1 && pos + lens[sym] <= 8 * |s|
    requires Msb(s, pos, lens[sym]) == Code(lens, sym)
    ensures Decode(lens, s, pos) == Some((sym, pos + lens[sym]))
  {
    hide Msb, Code, Oversubscribed, Window, Matches, Decode;
    MatchIsCode(lens, s, pos, sym);
    MatchIsSymbol(lens, s, s, pos, sym);
  }

  lemma CodeBits()
    ensures Bit(STREAM, 71) == 0 && Bit(STREAM, 79) == 0 && Bit(STREAM, 91) == 0
    ensures Bit(STREAM, 87) == 1 && Bit(STREAM, 88) == 1 && Bit(STREAM, 89) == 1 && Bit(STREAM, 90) == 0
  {
    hide STREAM, Shr;
    StreamBytes();
    Powers();
    ShrIsDiv(0x20, 7, 128);
    ShrIsDiv(0x7f, 7, 128);
    ShrIsDiv(0xeb, 7, 128);
    ShrIsDiv(0x03, 0, 1);
    ShrIsDiv(0x03, 1, 2);
    ShrIsDiv(0x03, 2, 4);
    ShrIsDiv(0x03, 3, 8);
  }

  lemma MsbOne(s: seq<Byte>, pos: nat)
    ensures Msb(s, pos, 1) == Bit(s, pos)
  {
    hide Bit;
    assert Msb(s, pos, 0) == 0;
  }

  lemma MsbTwo(s: seq<Byte>, pos: nat)
    ensures Msb(s, pos, 2) == 2 * Bit(s, pos) + Bit(s, pos + 1)
  {
    hide Bit;
    MsbOne(s, pos);
  }

  lemma CodeLengthSymbols()
    ensures Decode(Cl(), STREAM, 71) == Some((18, 72)) && Decode(Cl(), STREAM, 79) == Some((18, 80))
    ensures Decode(Cl(), STREAM, 87) == Some((1, 89)) && Decode(Cl(), STREAM, 89) == Some((0, 91))
  {
    hide STREAM, Msb, Bit, Code, Oversubscribed, Decode, Cl;
    StreamBytes();
    ClComplete();
    ClCode18();
    ClCodes();
    ClSize();
    CodeBits();
    MsbOne(STREAM, 71);
    MsbOne(STREAM, 79);
    MsbTwo(STREAM, 87);
    MsbTwo(STREAM, 89);
    DecodeHere(STREAM, Cl(), 71, 18);
    DecodeHere(STREAM, Cl(), 79, 18);
    DecodeHere(STREAM, Cl(), 87, 1);
    DecodeHere(STREAM, Cl(), 89, 0);
  }

  lemma RunCounts()
    ensures Take(STREAM, 72, 7) == Some((127, 79)) && Take(STREAM, 80, 7) == Some((107, 87))
  {
    Powers();
    hide Window, STREAM, Shl;
    StreamBytes();
    TwoBytes(STREAM, 9, 0, 7, 1, 128);
    TwoBytes(STREAM, 10, 0, 7, 1, 128);
  }

  // ---------- the codes: the end of block alone, and no distance ----------

  function Lit(): Lengths {
    Repeat(0, 256) + [1]
  }

  lemma TheLengths()
    ensures ReadLengths(Cl(), STREAM, 258, LengthList([], 71, 0)) == Some(LengthList(Lit() + [0], 91, 258))
  {
    hide STREAM, Decode, Take, ReadLengths, Cl;
    StreamBytes();
    CodeLengthSymbols();
    RunCounts();
    var l0 := LengthList([], 71, 0);
    var l1 := LengthList(Repeat(0, 138), 79, 0);
    var l2 := LengthList(Repeat(0, 256), 87, 0);
    var l3 := LengthList(Lit(), 89, 257);
    var l4 := LengthList(Lit() + [0], 91, 258);
    assert NextLengths(Cl(), STREAM, l0) == Some(l1) by { assert [] + Repeat(0, 138) == Repeat(0, 138); }
    assert NextLengths(Cl(), STREAM, l1) == Some(l2) by { assert Repeat(0, 138) + Repeat(0, 118) == Repeat(0, 256); }
    assert NextLengths(Cl(), STREAM, l2) == Some(l3);
    assert NextLengths(Cl(), STREAM, l3) == Some(l4);
    hide NextLengths;
    ReadMore(Cl(), STREAM, 258, l0, l1);
    ReadMore(Cl(), STREAM, 258, l1, l2);
    ReadMore(Cl(), STREAM, 258, l2, l3);
    ReadMore(Cl(), STREAM, 258, l3, l4);
    ReadLengthsDone(Cl(), STREAM, 258, l4);
  }

  lemma ReadMore(cl: Lengths, s: seq<Byte>, total: nat, l: LengthList, next: LengthList)
    requires HoldsList(l) && HoldsList(next) && |l.lens| < total && NextLengths(cl, s, l) == Some(next)
    ensures ReadLengths(cl, s, total, l) == ReadLengths(cl, s, total, next)
  {
    hide NextLengths;
  }

  lemma {:induction false} CountLit(b: nat, n: nat)
    requires b > 0 && n <= 257
    ensures Count(Lit(), b, n) == if b == 1 && n == 257 then 1 else 0
  {
    if n > 0 {
      CountLit(b, n - 1);
    }
  }

  lemma {:induction false} UsedLit(b: nat)
    requires b <= MAX_BITS
    ensures Used(Lit(), b) == if b == 0 then 0 else 0x4000
  {
    hide Lit;
    if b > 0 {
      UsedLit(b - 1);
      LitSize();
      CountLit(b, 257);
      Powers();
      ShlZero(MAX_BITS - b);
      ShlTwice(1, 1, 13);
    }
  }

  lemma LitSize()
    ensures |Lit()| == 257 && Lit()[256] == 1
  {}

  lemma LitIncomplete()
    ensures !Oversubscribed(Lit())
  {
    hide Lit;
    UsedLit(MAX_BITS);
    Powers();
  }

  lemma EndOfBlockHere()
    ensures Symbols(Lit(), [0], STREAM, 91, []) == Some((92, []))
  {
    hide STREAM, Msb, Bit, Oversubscribed, Decode, Lit;
    StreamBytes();
    LitSize();
    LitIncomplete();
    CodeBits();
    MsbOne(STREAM, 91);
    assert Code(Lit(), 256) == 0 by { CountLit(1, 256); }
    DecodeHere(STREAM, Lit(), 91, 256);
  }

  // ---------- the whole stream ----------

  function TheHeader(): (h: Header) {
    Header(257, 1, LengthList(Lit() + [0], 91, 258))
  }

  lemma HeaderHere()
    ensures ReadHeader(STREAM, 3) == Some(TheHeader())
  {
    hide STREAM, ReadCounts, CodeLengthLengths, ReadLengths, Oversubscribed, Lit, Cl;
    Counts();
    CodeLengths(0);
    assert LengthsAt(0) == Repeat(0, 19);
    assert LengthsAt(18) == Cl() by { AllLengths(); }
    ClComplete();
    TheLengths();
  }

  lemma AllLengths()
    ensures LengthsAt(18) == Cl()
  {}

  lemma HeaderParts()
    ensures TheHeader().Valid() && TheHeader().Lit() == Lit() && TheHeader().Dist() == [0]
    ensures |TheHeader().lengths.lens| == 258
  {
    LitSize();
    assert (Lit() + [0])[..257] == Lit();
  }

  lemma NoDistances()
    ensures !Oversubscribed([0])
  {
    hide Used;
    EmptyNotOversubscribed([0]);
  }

  /** The standard decodes the stream, to nothing; the program rejects its header. */
  lemma RejectedStream()
    ensures Decompresses(Standard, STREAM, [])
    ensures forall out :: !Decompresses(Program, STREAM, out)
  {
    hide STREAM, ReadHeader, Symbols, Take, Oversubscribed, Lit, TheHeader, Stored;
    StreamBytes();
    TypeBits();
    HeaderHere();
    HeaderParts();
    assert TheHeader().hlit == 257 && TheHeader().hdist == 1 && TheHeader().lengths.pos == 91 by { HeaderFields(); }
    LitIncomplete();
    NoDistances();
    EndOfBlockHere();
    assert DynamicBody(Standard, STREAM, 3, []) == Some((92, []));
    assert DynamicBody(Program, STREAM, 3, []) == None;
    hide DynamicBody;
    assert Block(Standard, STREAM, 0, []) == Some(BlockEnd(true, 92, []));
    assert Block(Program, STREAM, 0, []) == None;
  }

  lemma HeaderFields()
    ensures TheHeader().hlit == 257 && TheHeader().hdist == 1 && TheHeader().lengths.pos == 91
  {
    hide Lit;
  }
}
