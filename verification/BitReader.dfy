/** The inflater's input side: a file read byte by byte into a buffer of up to 32 bits, and its
    output side: a byte buffer with a write position. */
module BitReader {
  import opened Bits
  import opened Wrappers
  import opened Huffman
  import opened HuffmanTable
  import opened CodeTable
  import opened Rfc1951

  const INFLATER_EXTRA_BYTES: nat := 4

  class InflaterState {
    // input
    const file: seq<Byte>
    const compLen: nat
    var inPos: nat
    var inRemaining: int
    var inDataSize: nat
    var inData: nat
    // output
    const buffer: array<Byte>
    const outEnd: nat
    var out: nat

    /** The bit accounting: bits buffered are the last bits of the bytes read. */
    ghost predicate Valid()
      reads this
    {
      && compLen <= |file| && compLen + INFLATER_EXTRA_BYTES < 0x8000_0000
      && out <= outEnd <= buffer.Length
      && inDataSize <= 32 && inDataSize <= 8 * inPos
      && inData == Window(file, 8 * inPos - inDataSize, inDataSize)
      && inRemaining == compLen + INFLATER_EXTRA_BYTES - inPos
    }

    /** Outside a stored block's header at most three whole unread bytes are buffered. */
    ghost predicate Settled()
      reads this
    {
      Valid() && inDataSize < 32
    }

    /** How many bits have been consumed. */
    ghost function Pos(): nat
      reads this
      requires Valid()
    {
      8 * inPos - inDataSize
    }

    ghost function Data(): seq<Byte>
      requires compLen <= |file|
    {
      file[..compLen]
    }

    ghost function Output(): seq<Byte>
      reads this, buffer
      requires Valid()
    {
      buffer[..out]
    }

    constructor (file: seq<Byte>, compLen: nat, buffer: array<Byte>, outEnd: nat)
      requires compLen <= |file| && compLen + INFLATER_EXTRA_BYTES < 0x8000_0000 && outEnd <= buffer.Length
      ensures Settled() && Pos() == 0 && Output() == []
      ensures this.file == file && this.compLen == compLen && this.buffer == buffer && this.outEnd == outEnd
    {
      this.file, this.compLen, this.buffer, this.outEnd := file, compLen, buffer, outEnd;
      inPos, inRemaining, inDataSize, inData, out := 0, compLen + INFLATER_EXTRA_BYTES, 0, 0, 0;
    }

    /** Adds the next byte of the file above the bits already buffered. */
    method FetchByte()
      requires Valid() && inDataSize <= 24
      modifies this`inPos, this`inRemaining, this`inDataSize, this`inData
      ensures Valid() && Pos() == old(Pos()) && inDataSize == old(inDataSize) + 8
    {
      hide Window, Shl;
      WindowByte(file, Pos(), inDataSize, inPos, 8);
      inData := inData + Shl(ByteAt(file, inPos), inDataSize);
      inPos := inPos + 1;
      inRemaining := inRemaining - 1;
      inDataSize := inDataSize + 8;
    }

    /** Makes at least `j` bits available without consuming any. */
    method NeedBits(j: nat)
      requires Valid() && j <= 32 && (j <= 25 || inDataSize % 8 == j % 8 == 0)
      modifies this`inPos, this`inRemaining, this`inDataSize, this`inData
      ensures Valid() && Pos() == old(Pos()) && j <= inDataSize
      ensures old(inDataSize) <= inDataSize <= (if old(inDataSize) < j then j + 7 else old(inDataSize))
      ensures inDataSize % 8 == old(inDataSize) % 8
    {
      hide Window;
      ghost var fetched := 0;
      while inDataSize < j
        invariant Valid() && Pos() == old(Pos()) && inDataSize == old(inDataSize) + 8 * fetched
        invariant inDataSize <= (if old(inDataSize) < j then j + 7 else old(inDataSize))
        decreases j - inDataSize
      {
        AtMost24(old(inDataSize), fetched, j);
        FetchByte();
        fetched := fetched + 1;
      }
    }

    static lemma AtMost24(size: nat, fetched: nat, j: nat)
      requires size + 8 * fetched < j <= 32 && (j <= 25 || size % 8 == j % 8 == 0)
      ensures size + 8 * fetched <= 24
    {}

    /** The next `j` bits, without consuming them. */
    function NextBits(j: nat): (r: nat)
      reads this
      requires Valid() && j <= inDataSize
      ensures r == Window(file, Pos(), j)
    {
      WindowPeekDrop(file, Pos(), j, inDataSize);
      Low(inData, j)
    }

    /** Consumes `j` available bits. */
    method DumpBits(j: nat)
      requires Valid() && j <= inDataSize
      modifies this`inDataSize, this`inData
      ensures Valid() && Pos() == old(Pos()) + j && inDataSize == old(inDataSize) - j
    {
      hide Window, Shr, Low;
      WindowPeekDrop(file, Pos(), j, inDataSize);
      inData := Shr(inData, j);
      inDataSize := inDataSize - j;
    }

    /** Where the program's bits and the specification's agree: inside the compressed data. */
    lemma TakeIsWindow(n: nat)
      requires Valid()
      ensures Take(Data(), Pos(), n) ==
              if Pos() + n <= 8 * compLen then Some((Window(file, Pos(), n), Pos() + n)) else None
    {
      hide Window;
      if Pos() + n <= 8 * compLen {
        WindowPrefix(file, Data(), Pos(), n);
      }
    }

    /** Takes `n` bits that are available. */
    method TakeBits(n: nat) returns (v: nat)
      requires Valid() && n <= inDataSize
      modifies this`inDataSize, this`inData
      ensures Valid() && Pos() == old(Pos()) + n && inDataSize == old(inDataSize) - n
      ensures v == Window(file, old(Pos()), n) < Shl(1, n)
      ensures Take(Data(), old(Pos()), n) == if Pos() <= 8 * compLen then Some((v, Pos())) else None
    {
      hide Window, Shl, Take;
      TakeIsWindow(n);
      v := NextBits(n);
      DumpBits(n);
    }

    /** Decodes one symbol through a table: nothing if the bits start with no code. */
    method GetHuffmanEntry(table: HuffmanCodeTable, ghost lens: Lengths) returns (r: Option<nat>)
      requires Valid() && MAX_BITS <= inDataSize
      requires !Oversubscribed(lens) && table.Decodes(lens)
      modifies this`inDataSize, this`inData
      ensures Valid() && old(inDataSize) - MAX_BITS <= inDataSize <= old(inDataSize)
      ensures Symbol(lens, file, Data(), old(Pos()), r, Pos())
    {
      hide Window, Shl, Low, Shr, Oversubscribed, Matches, Symbol;
      ghost var w := inData;
      assert LookupIn(table.entries[..], table.quickBits, table.maxCodeLen, w).Some?;
      var huff := table.entries[NextBits(table.quickBits)];
      if huff >= HUFFINFO_LONG_MASK {
        var delta := huff - HUFFINFO_LONG_MASK;
        var table2 := (delta - HEADER_BYTES) / ENTRY_BYTES;
        huff := table.entries[table2 + Shr(NextBits(table.maxCodeLen), table.quickBits)];
      }
      assert EntryFor(lens, w, huff);
      EntryIsSymbol(lens, file, Data(), Pos(), w, inDataSize, huff);
      if huff == 0 {
        return None;
      }
      DumpBits(huff % 16);
      return Some(huff / 16);
    }
  }

  /** What decoding a symbol at `pos` in the file says about the data it starts with: it is the
      specified symbol, unless it ends after the data. */
  ghost predicate Symbol(lens: Lengths, file: seq<Byte>, data: seq<Byte>, pos: nat, r: Option<nat>, end: nat) {
    match r
    case None => end == pos && Decode(lens, data, pos) == None
    case Some(sym) =>
      && sym < |lens| && pos < end
      && Decode(lens, data, pos) == if end <= 8 * |data| then Some((sym, end)) else None
  }

  lemma MatchOnPrefix(lens: Lengths, file: seq<Byte>, data: seq<Byte>, pos: nat, sym: nat)
    requires data <= file && sym < |lens| && pos + lens[sym] <= 8 * |data|
    ensures Matches(lens, sym, Window(file, pos, MAX_BITS)) <==> Matches(lens, sym, Window(data, pos, MAX_BITS))
  {
    hide Window, Low, Code, Rev;
    WindowPrefix(file, data, pos, lens[sym]);
    WindowPeekDrop(file, pos, lens[sym], MAX_BITS);
    WindowPeekDrop(data, pos, lens[sym], MAX_BITS);
  }

  lemma MatchIsSymbol(lens: Lengths, file: seq<Byte>, data: seq<Byte>, pos: nat, sym: nat)
    requires !Oversubscribed(lens) && data <= file
    requires Matches(lens, sym, Window(file, pos, MAX_BITS))
    ensures Symbol(lens, file, data, pos, Some(sym), pos + lens[sym])
  {
    hide Window, Oversubscribed, Decode, Low, Rev, Code;
    DecodeFindsMatch(lens, data, pos);
    if pos + lens[sym] <= 8 * |data| {
      MatchOnPrefix(lens, file, data, pos, sym);
    }
    if Decode(lens, data, pos).Some? {
      var other := Decode(lens, data, pos).value.0;
      MatchOnPrefix(lens, file, data, pos, other);
      MatchUnique(lens, sym, other, Window(file, pos, MAX_BITS));
    }
  }

  lemma NoMatchNoSymbol(lens: Lengths, file: seq<Byte>, data: seq<Byte>, pos: nat)
    requires !Oversubscribed(lens) && data <= file
    requires forall sym :: !Matches(lens, sym, Window(file, pos, MAX_BITS))
    ensures Symbol(lens, file, data, pos, None, pos)
  {
    hide Window, Oversubscribed, Decode, Low, Rev, Code;
    DecodeFindsMatch(lens, data, pos);
    if Decode(lens, data, pos).Some? {
      MatchOnPrefix(lens, file, data, pos, Decode(lens, data, pos).value.0);
    }
  }

  /** A table entry for more than enough bits names the symbol and its length. */
  lemma EntryIsSymbol(lens: Lengths, file: seq<Byte>, data: seq<Byte>, pos: nat, w: nat, n: nat, huff: nat)
    requires !Oversubscribed(lens) && data <= file && MAX_BITS <= n
    requires w == Window(file, pos, n) && EntryFor(lens, w, huff)
    ensures huff == 0 ==> Symbol(lens, file, data, pos, None, pos)
    ensures huff != 0 ==> huff % 16 <= MAX_BITS && Symbol(lens, file, data, pos, Some(huff / 16), pos + huff % 16)
  {
    hide Window, Oversubscribed, Symbol;
    forall sym: nat
      ensures Matches(lens, sym, w) <==> Matches(lens, sym, Window(file, pos, MAX_BITS))
    {
      MatchOnWindow(lens, file, pos, n, sym);
    }
    hide Matches;
    if huff == 0 {
      forall sym: nat ensures !Matches(lens, sym, Window(file, pos, MAX_BITS)) {
        if Matches(lens, sym, w) {
          ZeroIsNoEntry(lens, sym, w);
        }
      }
      NoMatchNoSymbol(lens, file, data, pos);
    } else {
      var sym :| Matches(lens, sym, w);
      MatchIsSymbol(lens, file, data, pos, sym);
      ZeroIsNoEntry(lens, sym, w);
    }
  }

  lemma MatchOnWindow(lens: Lengths, file: seq<Byte>, pos: nat, n: nat, sym: nat)
    requires MAX_BITS <= n
    ensures Matches(lens, sym, Window(file, pos, n)) <==> Matches(lens, sym, Window(file, pos, MAX_BITS))
  {
    hide Window, Low, Rev, Code;
    if sym < |lens| {
      WindowPeekDrop(file, pos, lens[sym], n);
      WindowPeekDrop(file, pos, lens[sym], MAX_BITS);
    }
  }

  lemma ZeroIsNoEntry(lens: Lengths, sym: nat, w: nat)
    requires Matches(lens, sym, w)
    ensures Huff(lens, sym) != 0 && Huff(lens, sym) / 16 == sym && Huff(lens, sym) % 16 == lens[sym] <= MAX_BITS
    ensures lens[sym] >= 1
  {
    hide Low, Rev, Code;
  }
}
