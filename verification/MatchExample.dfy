/** Two short streams and what they decode to: a match that overlaps the bytes it writes, in the fixed
    codes, and a stored byte. */
module MatchExample {
  import opened Bits
  import opened Wrappers
  import opened Huffman
  import opened Rfc1951
  import opened FixedCodes
  import opened CodeTable
  import opened BitReader
  import opened Inflate
  import InflateExample

  /** A symbol whose reversed code stands in two adjacent bytes is the next one. */
  lemma DecodeBits(s: seq<Byte>, lens: Lengths, sym: nat, i: nat, k: nat, n: nat, kk: nat, nn: nat)
    requires !Oversubscribed(lens) && sym < |lens| && lens[sym] == n >= 1
    requires k + n <= 16 && kk == Shl(1, k) && nn == Shl(1, n) && 8 * i + k + n <= 8 * |s|
    requires (ByteAt(s, i) + 256 * ByteAt(s, i + 1)) / kk % nn == Rev(Code(lens, sym), n)
    ensures Decode(lens, s, 8 * i + k) == Some((sym, 8 * i + k + n))
  {
    hide Window, Shl, Rev, Low, Shr, Code, Oversubscribed, Decode, ByteAt;
    var pos := 8 * i + k;
    InflateExample.TwoBytes(s, i, k, n, kk, nn);
    WindowPeekDrop(s, pos, n, MAX_BITS);
    MatchIsSymbol(lens, s, s, pos, sym);
  }

  lemma RevNext(v: nat, n: nat)
    requires n > 0
    ensures Rev(v, n) == (if v % 2 == 1 then Shl(1, n - 1) else 0) + Rev(v / 2, n - 1)
  {
    ShlZero(n - 1);
  }

  // ---------- literal 'a', a match of length 4 and distance 1, end of block ----------

  const MATCH: seq<Byte> := [0x4b, 0x04, 0x01, 0x00]

  lemma MatchBytes()
    ensures |MATCH| == 4 && MATCH[0] == 0x4b && MATCH[1] == 0x04 && MATCH[2] == 0x01 && MATCH[3] == 0x00
  {}

  lemma MatchType()
    ensures Take(MATCH, 0, 3) == Some((3, 3))
  {
    Powers();
    hide Window, MATCH;
    MatchBytes();
    InflateExample.ThreeBits(MATCH, 0, 0, 1);
  }

  lemma {:induction false} RevZero(n: nat)
    ensures Rev(0, n) == 0
  {
    if n > 0 {
      RevZero(n - 1);
      ShlZero(n - 1);
    }
  }

  /** The codes of 'a' and of length symbol 258, reversed. */
  lemma RevCodes(eight: nat, seven: nat)
    requires eight == 8 && seven == 7
    ensures Rev(0x91, eight) == 0x89 && Rev(2, seven) == 0x20
  {
    Powers();
    RevZero(1);
    RevZero(5);
    RevNext(0x91, 8);
    RevNext(0x48, 7);
    RevNext(0x24, 6);
    RevNext(0x12, 5);
    RevNext(9, 4);
    RevNext(4, 3);
    RevNext(2, 2);
    RevNext(1, 1);
    RevNext(2, 7);
    RevNext(1, 6);
    hide Rev, Shl;
  }

  lemma FirstSymbol()
    ensures Decode(FixedLit(), MATCH, 3) == Some((97, 11))
  {
    Powers();
    hide MATCH, Rev, Shl, Code, Oversubscribed, Decode, FixedLit;
    MatchBytes();
    FixedLitComplete();
    assert |FixedLit()| == LitCount();
    FixedCode(97);
    RevCodes(8, 7);
    DecodeBits(MATCH, FixedLit(), 97, 0, 3, 8, 8, 256);
  }

  lemma LengthSymbol()
    ensures Decode(FixedLit(), MATCH, 11) == Some((258, 18))
  {
    Powers();
    hide MATCH, Rev, Shl, Code, Oversubscribed, Decode, FixedLit;
    MatchBytes();
    FixedLitComplete();
    assert |FixedLit()| == LitCount();
    FixedCode(258);
    RevCodes(8, 7);
    DecodeBits(MATCH, FixedLit(), 258, 1, 3, 7, 8, 128);
  }

  lemma LastSymbol()
    ensures Decode(FixedLit(), MATCH, 23) == Some((256, 30))
  {
    Powers();
    hide MATCH, Rev, Shl, Code, Oversubscribed, Decode, FixedLit;
    MatchBytes();
    FixedLitComplete();
    assert |FixedLit()| == LitCount();
    FixedCode(256);
    RevZero(7);
    DecodeBits(MATCH, FixedLit(), 256, 2, 7, 7, 128, 128);
  }

  lemma DistanceSymbol()
    ensures Decode(FixedDist(), MATCH, 18) == Some((0, 23))
  {
    Powers();
    hide MATCH, Rev, Shl, Code, Oversubscribed, Decode, FixedDist;
    MatchBytes();
    FixedDistComplete();
    DistSize();
    DistCode(0);
    RevZero(5);
    DecodeBits(MATCH, FixedDist(), 0, 2, 2, 5, 4, 32);
  }

  lemma LengthAndDistance()
    ensures ReadLength(MATCH, 18, 258) == Some((4, 18)) && ReadDistance(FixedDist(), MATCH, 18) == Some((1, 23))
  {
    MatchBytes();
    DistanceSymbol();
    hide MATCH, Decode, FixedDist;
    assert LENGTH_BASE[1] == 4 && LENGTH_EXTRA[1] == 0 && DIST_BASE[0] == 1 && DIST_EXTRA[0] == 0;
  }

  lemma Copied()
    ensures CopyMatch([97], 1, 4) == [97, 97, 97, 97, 97]
  {
    var b: Byte := 97;
    assert CopyMatch([b, b, b, b, b], 1, 0) == [b, b, b, b, b];
    assert CopyMatch([b, b, b, b], 1, 1) == [b, b, b, b, b];
    assert CopyMatch([b, b, b], 1, 2) == [b, b, b, b, b];
    assert CopyMatch([b, b], 1, 3) == [b, b, b, b, b];
    assert CopyMatch([b], 1, 4) == [b, b, b, b, b];
  }

  /** The stream decodes to "aaaaa" and to nothing else. */
  lemma MatchDecodes(rules: Rules, out: seq<Byte>)
    ensures Decompresses(rules, MATCH, out) <==> out == [97, 97, 97, 97, 97]
  {
    hide MATCH, Decode, FixedLit, FixedDist, Take, ReadLength, ReadDistance, CopyMatch, Stored, DynamicBody;
    MatchBytes();
    MatchType();
    FirstSymbol();
    LengthSymbol();
    LastSymbol();
    LengthAndDistance();
    Copied();
    var all := [97, 97, 97, 97, 97];
    assert Symbols(FixedLit(), FixedDist(), MATCH, 23, all) == Some((30, all));
    assert Symbols(FixedLit(), FixedDist(), MATCH, 11, [97]) == Some((30, all));
    assert [] + [97] == [97];
    assert Symbols(FixedLit(), FixedDist(), MATCH, 3, []) == Some((30, all));
    hide Symbols;
    assert Block(rules, MATCH, 0, []) == Some(BlockEnd(true, 30, all));
  }

  // ---------- a stored byte ----------

  const STORED: seq<Byte> := [0x01, 0x01, 0x00, 0xfe, 0xff, 0x61]

  lemma StoredBytes()
    ensures |STORED| == 6 && STORED[0] == 0x01 && STORED[1] == 0x01 && STORED[2] == 0x00
            && STORED[3] == 0xfe && STORED[4] == 0xff && STORED[5] == 0x61
  {}

  lemma StoredType()
    ensures Take(STORED, 0, 3) == Some((1, 3))
  {
    Powers();
    hide Window, STORED;
    StoredBytes();
    InflateExample.ThreeBits(STORED, 0, 0, 1);
  }

  lemma Power16(sixteen: nat)
    requires sixteen == 16
    ensures Shl(1, 0) == 1 && Shl(1, sixteen) == 0x1_0000
  {
    Powers();
    hide Shl;
    ShlTwice(1, 15, sixteen - 15);
    assert Shl(0x8000, 1) == 0x1_0000 by { DoubleOnce(0x8000); }
  }

  lemma DoubleOnce(v: nat)
    ensures Shl(v, 1) == 2 * v
  {
    assert Shl(v, 0) == v;
  }

  /** Sixteen bits on a byte boundary. */
  lemma Sixteen(s: seq<Byte>, i: nat, sixteen: nat, v: nat)
    requires i + 2 <= |s| && sixteen == 16 && v == ByteAt(s, i) + 256 * ByteAt(s, i + 1)
    ensures Take(s, 8 * i, sixteen) == Some((v, 8 * i + 16))
  {
    hide Window, Shl, ByteAt;
    var one, whole := Shl(1, 0), Shl(1, sixteen);
    InflateExample.TwoBytes(s, i, 0, sixteen, one, whole);
    Power16(sixteen);
    WholeWord(v, one, whole);
  }

  lemma WholeWord(v: nat, one: nat, whole: nat)
    requires one == 1 && whole == 0x1_0000 && v < whole
    ensures v / one % whole == v
  {}

  lemma StoredFields()
    ensures Take(STORED, 8, 16) == Some((1, 24)) && Take(STORED, 24, 16) == Some((0xfffe, 40))
  {
    hide Take, STORED;
    StoredBytes();
    Sixteen(STORED, 1, 16, 1);
    Sixteen(STORED, 3, 16, 0xfffe);
  }

  /** The stream decodes to "a" and to nothing else. */
  lemma StoredDecodes(rules: Rules, out: seq<Byte>)
    ensures Decompresses(rules, STORED, out) <==> out == [97]
  {
    hide STORED, Take, Symbols, DynamicBody;
    StoredBytes();
    StoredType();
    StoredFields();
    assert STORED[5..6] == [97];
    assert [] + [97] == [97];
    assert Stored(STORED, 3, []) == Some((48, [97]));
    hide Stored;
    assert Block(rules, STORED, 0, []) == Some(BlockEnd(true, 48, [97]));
  }
}
