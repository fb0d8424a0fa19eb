/** A thirteen-byte stream, of no output, that the program decodes although the standard does not: its
    one dynamic header ends in a run of zeros past the last code length. */
module LongRunExample {
  import opened Bits
  import opened Wrappers
  import opened Huffman
  import opened Rfc1951
  import opened FixedCodes
  import opened CodeTable
  import opened Reverse
  import opened Inflate
  import opened InflateRules
  import InflateExample

  const STREAM: seq<Byte> := [0x05, 0xc1, 0x81, 0x00, 0x00, 0x00, 0x00, 0x00, 0x90, 0xff, 0x6b, 0x02, 0x00]

  lemma StreamBytes()
    ensures |STREAM| == 13
    ensures STREAM[0] == 0x05 && STREAM[1] == 0xc1 && STREAM[2] == 0x81 && STREAM[3] == 0x00 && STREAM[4] == 0x00
    ensures STREAM[5] == 0x00 && STREAM[6] == 0x00 && STREAM[7] == 0x00 && STREAM[8] == 0x90 && STREAM[9] == 0xff
    ensures STREAM[10] == 0x6b && STREAM[11] == 0x02 && STREAM[12] == 0x00
  {}

  lemma TypeAndCounts()
    ensures Take(STREAM, 0, 3) == Some((5, 3)) && ReadCounts(STREAM, 3) == Some((257, 2, 18, 17))
  {
    Powers();
    hide Window, STREAM, Shl;
    StreamBytes();
    InflateExample.TwoBytes(STREAM, 0, 0, 3, 1, 8);
    InflateExample.TwoBytes(STREAM, 0, 3, 5, 8, 32);
    InflateExample.TwoBytes(STREAM, 1, 0, 5, 1, 32);
    InflateExample.TwoBytes(STREAM, 1, 5, 4, 32, 16);
  }

  // ---------- the code-length code: 1 is 0, 18 is 1 ----------

  function NthLength(i: nat): nat {
    if i == 2 || i == 17 then 1 else 0
  }

  lemma NthBits(i: nat)
    requires i < 18
    ensures Take(STREAM, 17 + 3 * i, 3) == Some((NthLength(i), 20 + 3 * i))
  {
    Powers();
    hide Window, STREAM, Shl;
    StreamBytes();
    var b, k := (17 + 3 * i) / 8, (17 + 3 * i) % 8;
    InflateExample.ThreeBits(STREAM, b, k, Shl(1, k));
    StreamThree(b, k, i);
  }

  lemma StreamThree(b: nat, k: nat, i: nat)
    requires i < 18 && 8 * b + k == 17 + 3 * i && k < 8
    ensures b < 12 && (STREAM[b] + 256 * STREAM[b + 1]) / Shl(1, k) % 8 == NthLength(i)
  {
    hide STREAM;
    if i < 9 {
      FirstThrees(b, k, i);
    } else {
      LastThrees(b, k, i);
    }
  }

  lemma FirstThrees(b: nat, k: nat, i: nat)
    requires i < 9 && 8 * b + k == 17 + 3 * i && k < 8
    ensures (STREAM[b] + 256 * STREAM[b + 1]) / Shl(1, k) % 8 == NthLength(i)
  {
    Powers();
    hide STREAM;
    StreamBytes();
  }

  lemma LastThrees(b: nat, k: nat, i: nat)
    requires 9 <= i < 18 && 8 * b + k == 17 + 3 * i && k < 8
    ensures b < 12 && (STREAM[b] + 256 * STREAM[b + 1]) / Shl(1, k) % 8 == NthLength(i)
  {
    Powers();
    hide STREAM;
    StreamBytes();
  }

  /** The lengths of the code-length codes after the first `i` of them have been read. */
  function LengthsAt(i: nat): seq<nat> {
    seq(19, (k: nat) => if (k == 18 && i > 2) || (k == 1 && i > 17) then 1 else 0)
  }

  lemma LengthsBounds(i: nat)
    ensures |LengthsAt(i)| == 19 && forall k :: 0 <= k < 19 ==> LengthsAt(i)[k] <= 7
  {}

  lemma NextLength(i: nat)
    requires i < 18
    ensures |CODE_LENGTH_ORDER| == 19 && CODE_LENGTH_ORDER[i] < 19
    ensures LengthsAt(i)[CODE_LENGTH_ORDER[i] := NthLength(i)] == LengthsAt(i + 1)
  {}

  lemma {:induction false} CodeLengths(i: nat)
    requires i <= 18
    ensures CodeLengthLengths(STREAM, 17 + 3 * i, 18, i, LengthsAt(i)) == Some((LengthsAt(18), 71))
    decreases 18 - i
  {
    hide STREAM, CODE_LENGTH_ORDER, Take, LengthsAt;
    StreamBytes();
    LengthsBounds(i);
    if i < 18 {
      CodeLengths(i + 1);
      NthBits(i);
      NextLength(i);
      CodeLengthLengthsStep(STREAM, 17 + 3 * i, 18, i, LengthsAt(i), NthLength(i), 20 + 3 * i);
    }
  }

  function Cl(): Lengths {
    seq(19, (k: nat) => if k == 1 || k == 18 then 1 else 0)
  }

  lemma {:induction false} CountCl(b: nat, n: nat)
    requires b > 0 && n <= 19
    ensures Count(Cl(), b, n) == if b != 1 then 0 else (if n > 1 then 1 else 0) + (if n > 18 then 1 else 0)
  {
    if n > 0 {
      CountCl(b, n - 1);
    }
  }

  lemma {:induction false} UsedCl(b: nat)
    requires b <= MAX_BITS
    ensures Used(Cl(), b) == if b == 0 then 0 else 0x8000
  {
    hide Cl;
    if b > 0 {
      UsedCl(b - 1);
      ClSize();
      CountCl(b, 19);
      Powers();
      ShlZero(MAX_BITS - b);
      ShlTwice(1, 1, 13);
    }
  }

  lemma ClSize()
    ensures |Cl()| == 19
  {}

  lemma ClCodes()
    ensures !Oversubscribed(Cl())
    ensures Cl()[1] == 1 && Code(Cl(), 1) == 0 && Cl()[18] == 1 && Code(Cl(), 18) == 1
  {
    assert !Oversubscribed(Cl()) by {
      hide Cl;
      UsedCl(MAX_BITS);
      Powers();
    }
    CountCl(1, 1);
    CountCl(1, 18);
    hide Count, Oversubscribed;
  }

  lemma CodeBits()
    ensures Bit(STREAM, 71) == 1 && Bit(STREAM, 79) == 1 && Bit(STREAM, 87) == 0 && Bit(STREAM, 88) == 0
    ensures Bit(STREAM, 89) == 1 && Bit(STREAM, 97) == 0
  {
    hide STREAM, Shr;
    StreamBytes();
    Powers();
    ShrIsDiv(0x90, 7, 128);
    ShrIsDiv(0xff, 7, 128);
    ShrIsDiv(0x6b, 7, 128);
    ShrIsDiv(0x02, 0, 1);
    ShrIsDiv(0x02, 1, 2);
    ShrIsDiv(0x00, 1, 2);
  }

  /** A symbol of the code-length code, by its one bit. */
  lemma OneBitSymbol(pos: nat, sym: nat)
    requires (sym == 1 && Bit(STREAM, pos) == 0) || (sym == 18 && Bit(STREAM, pos) == 1)
    requires pos < 104
    ensures Decode(Cl(), STREAM, pos) == Some((sym, pos + 1))
  {
    hide STREAM, Msb, Bit, Code, Oversubscribed, Decode, Cl;
    StreamBytes();
    ClCodes();
    ClSize();
    InflateExample.MsbOne(STREAM, pos);
    InflateExample.DecodeHere(STREAM, Cl(), pos, sym);
  }

  lemma RunCounts()
    ensures Take(STREAM, 72, 7) == Some((127, 79)) && Take(STREAM, 80, 7) == Some((107, 87))
            && Take(STREAM, 90, 7) == Some((0, 97))
  {
    Powers();
    hide Window, STREAM, Shl;
    StreamBytes();
    InflateExample.TwoBytes(STREAM, 9, 0, 7, 1, 128);
    InflateExample.TwoBytes(STREAM, 10, 0, 7, 1, 128);
    InflateExample.TwoBytes(STREAM, 11, 2, 7, 4, 128);
  }

  // ---------- the code lengths: one code each, and eleven zeros of which one is used ----------

  function Lens(): seq<nat> {
    InflateExample.Lit() + [1] + Repeat(0, 11)
  }

  lemma TheLengths()
    ensures ReadLengths(Cl(), STREAM, 259, LengthList([], 71, 0)) == Some(LengthList(Lens(), 97, 258))
  {
    hide STREAM, Decode, Take, ReadLengths, Cl, Bit;
    StreamBytes();
    CodeBits();
    OneBitSymbol(71, 18);
    OneBitSymbol(79, 18);
    OneBitSymbol(87, 1);
    OneBitSymbol(88, 1);
    OneBitSymbol(89, 18);
    RunCounts();
    var l0 := LengthList([], 71, 0);
    var l1 := LengthList(Repeat(0, 138), 79, 0);
    var l2 := LengthList(Repeat(0, 256), 87, 0);
    var l3 := LengthList(InflateExample.Lit(), 88, 257);
    var l4 := LengthList(InflateExample.Lit() + [1], 89, 258);
    var l5 := LengthList(Lens(), 97, 258);
    assert NextLengths(Cl(), STREAM, l0) == Some(l1) by { assert [] + Repeat(0, 138) == Repeat(0, 138); }
    assert NextLengths(Cl(), STREAM, l1) == Some(l2) by { assert Repeat(0, 138) + Repeat(0, 118) == Repeat(0, 256); }
    assert NextLengths(Cl(), STREAM, l2) == Some(l3);
    assert NextLengths(Cl(), STREAM, l3) == Some(l4);
    assert NextLengths(Cl(), STREAM, l4) == Some(l5);
    hide NextLengths;
    InflateExample.ReadMore(Cl(), STREAM, 259, l0, l1);
    InflateExample.ReadMore(Cl(), STREAM, 259, l1, l2);
    InflateExample.ReadMore(Cl(), STREAM, 259, l2, l3);
    InflateExample.ReadMore(Cl(), STREAM, 259, l3, l4);
    InflateExample.ReadMore(Cl(), STREAM, 259, l4, l5);
    ReadLengthsDone(Cl(), STREAM, 259, l5);
  }

  function TheHeader(): (h: Header) {
    Header(257, 2, LengthList(Lens(), 97, 258))
  }

  lemma HeaderHere()
    ensures ReadHeader(STREAM, 3) == Some(TheHeader())
  {
    hide STREAM, ReadCounts, CodeLengthLengths, ReadLengths, Oversubscribed, Lens, Cl;
    TypeAndCounts();
    CodeLengths(0);
    assert LengthsAt(0) == Repeat(0, 19);
    assert LengthsAt(18) == Cl() by { AllLengths(); }
    ClCodes();
    TheLengths();
  }

  lemma AllLengths()
    ensures LengthsAt(18) == Cl()
  {}

  lemma HeaderParts()
    ensures var h := TheHeader();
            h.Valid() && h.Lit() == InflateExample.Lit() && h.Dist() == [1, 0] && |h.lengths.lens| == 269
            && h.hlit == 257 && h.hdist == 2 && h.lengths.pos == 97 && h.lengths.written == 258
    ensures !AllZero(InflateExample.Lit())
  {
    InflateExample.LitSize();
    hide InflateExample.Lit;
    var l := Lens();
    assert l[..257] == InflateExample.Lit();
    assert l[257..259] == [1, 0];
  }

  lemma {:induction false} UsedDist(b: nat)
    requires b <= MAX_BITS
    ensures Used([1, 0], b) == if b == 0 then 0 else 0x4000
  {
    if b > 0 {
      UsedDist(b - 1);
      CountDist(b);
      Powers();
      ShlZero(MAX_BITS - b);
      ShlTwice(1, 1, 13);
    }
  }

  lemma CountDist(b: nat)
    requires b > 0
    ensures Count([1, 0], b, 2) == if b == 1 then 1 else 0
  {
    assert Count([1, 0], b, 1) == Count([1, 0], b, 0) + if b == 1 then 1 else 0;
  }

  lemma DistIncomplete()
    ensures !Oversubscribed([1, 0]) && !AllZero([1, 0])
  {
    UsedDist(MAX_BITS);
    Powers();
    assert [1, 0][0] != 0;
  }

  lemma EndOfBlockHere()
    ensures Symbols(InflateExample.Lit(), [1, 0], STREAM, 97, []) == Some((98, []))
  {
    hide STREAM, Msb, Bit, Oversubscribed, Decode, InflateExample.Lit;
    StreamBytes();
    InflateExample.LitSize();
    InflateExample.LitIncomplete();
    CodeBits();
    InflateExample.MsbOne(STREAM, 97);
    assert Code(InflateExample.Lit(), 256) == 0 by { InflateExample.CountLit(1, 256); }
    InflateExample.DecodeHere(STREAM, InflateExample.Lit(), 97, 256);
  }

  /** The program decodes the stream, to nothing; the standard does not allow its header. */
  lemma AcceptedStream()
    ensures Decompresses(Program, STREAM, [])
    ensures forall out :: !Decompresses(Standard, STREAM, out)
  {
    hide STREAM, ReadHeader, Symbols, Take, Oversubscribed, InflateExample.Lit, TheHeader, Stored, AllZero;
    StreamBytes();
    TypeAndCounts();
    HeaderHere();
    HeaderParts();
    InflateExample.LitIncomplete();
    DistIncomplete();
    EndOfBlockHere();
    assert DynamicBody(Program, STREAM, 3, []) == Some((98, []));
    assert DynamicBody(Standard, STREAM, 3, []) == None;
    hide DynamicBody;
    assert Block(Program, STREAM, 0, []) == Some(BlockEnd(true, 98, []));
    assert Block(Standard, STREAM, 0, []) == None;
  }
}
