/** The inflater, proved to decode exactly what RFC 1951 decodes under the program's header rules. */
module Inflate {
  import opened Bits
  import opened Wrappers
  import opened Reverse
  import opened Huffman
  import opened HuffmanTable
  import opened TableSpace
  import opened CodeTable
  import opened Rfc1951
  import opened FixedCodes
  import opened BitReader

  /** What the specification says of a body, against where the program stopped: if it succeeded,
      it decoded the body, unless it ran past the data, which then has no such body; if it failed,
      there is no such body, or none that fits the output buffer. */
  ghost predicate Tracks(r: Option<(nat, seq<Byte>)>, ok: bool, limit: nat, pos: nat, out: seq<Byte>, room: nat) {
    if ok then r == if pos <= limit then Some((pos, out)) else None
    else r.Some? ==> |r.value.1| > room
  }

  // ---------- stored blocks ----------

  /** The buffered bits of a begun byte are what lies before the next byte boundary. */
  lemma BoundaryAhead(pos: nat, size: nat, bytes: nat)
    requires 8 * bytes == pos + size
    ensures pos + size % 8 == NextByte(pos)
  {}

  /** Moves to a byte boundary and reads LEN and NLEN, which empties the bit buffer. */
  method StoredHeader(s: InflaterState) returns (len: nat, nlen: nat)
    requires s.Settled()
    modifies s`inPos, s`inRemaining, s`inDataSize, s`inData
    ensures s.Valid() && s.inDataSize == 0 && len < 0x1_0000
    ensures s.Pos() == NextByte(old(s.Pos())) + 32
    ensures Take(s.Data(), NextByte(old(s.Pos())), LEN_BITS)
         == if NextByte(old(s.Pos())) + 16 <= 8 * s.compLen then Some((len, NextByte(old(s.Pos())) + 16)) else None
    ensures Take(s.Data(), NextByte(old(s.Pos())) + 16, LEN_BITS)
         == if NextByte(old(s.Pos())) + 32 <= 8 * s.compLen then Some((nlen, NextByte(old(s.Pos())) + 32)) else None
  {
    hide Window, Take, Shl, Low, Shr;
    BoundaryAhead(s.Pos(), s.inDataSize, s.inPos);
    s.DumpBits(s.inDataSize % 8);
    hide NextByte;
    s.NeedBits(32);
    assert s.Pos() == NextByte(old(s.Pos()));
    len := s.TakeBits(LEN_BITS);
    nlen := s.TakeBits(LEN_BITS);
    LenFits(len, LEN_BITS);
  }

  /** Copies `len` bytes from the file to the output, if the file has them. */
  method CopyBytes(s: InflaterState, len: nat) returns (ok: bool)
    requires s.Valid() && s.inDataSize == 0 && s.out + len <= s.outEnd
    modifies s`inPos, s`inRemaining, s`out, s`inData, s.buffer
    ensures ok <==> old(s.inPos) + len <= |s.file|
    ensures s.Valid() && s.inDataSize == 0 && s.inPos == old(s.inPos) + (if ok then len else 0)
    ensures s.out == old(s.out) + (if ok then len else 0)
    ensures ok ==> s.Output() == old(s.Output()) + s.file[old(s.inPos)..old(s.inPos) + len]
    ensures !ok ==> s.Output() == old(s.Output())
    ensures forall i :: s.out <= i < s.buffer.Length ==> s.buffer[i] == old(s.buffer[i])
  {
    hide Window;
    if s.inPos + len > |s.file| {
      return false;
    }
    forall i | 0 <= i < len {
      s.buffer[s.out + i] := s.file[s.inPos + i];
    }
    s.inPos := s.inPos + len;
    s.inRemaining := s.inRemaining - len;
    s.out := s.out + len;
    EmptyWindow(s.file, 8 * s.inPos);
    EmptyWindow(s.file, 8 * (s.inPos - len));
    return true;
  }

  method InflateStored(s: InflaterState) returns (ok: bool)
    requires s.Settled()
    modifies s, s.buffer
    ensures s.Settled() && s.out >= old(s.out) && s.Pos() > old(s.Pos())
    ensures forall i :: s.out <= i < s.buffer.Length ==> s.buffer[i] == old(s.buffer[i])
    ensures Tracks(Stored(s.Data(), old(s.Pos()), old(s.Output())), ok, 8 * s.compLen, s.Pos(), s.Output(), s.outEnd)
  {
    hide Window, Take, Stored, Shl, Low, Shr;
    ghost var pos, out0 := s.Pos(), s.Output();
    var len, nlen := StoredHeader(s);
    StoredUnfold(s.Data(), pos, out0, s.file, s.inPos, len, nlen);
    if len + nlen != LEN_SUM {
      return false;
    } else if s.inRemaining % 0x1_0000_0000 < len {
      return false;
    } else if s.out + len > s.outEnd {
      return false;
    }
    ok := CopyBytes(s, len);
  }

  lemma EmptyWindow(s: seq<Byte>, pos: nat)
    ensures Window(s, pos, 0) == 0
  {}

  lemma LenFits(len: nat, bits: nat)
    requires len < Shl(1, bits) && bits == 16
    ensures len < 0x1_0000
  {
    ShlTwice(1, 8, 8);
    Powers();
    assert Shl(1, 16) == 65536;
  }

  /** The specification of a stored block, once its length fields have been read. */
  lemma StoredUnfold(data: seq<Byte>, pos: nat, out: seq<Byte>, file: seq<Byte>, start: nat, len: nat, nlen: nat)
    requires data <= file && 8 * start == NextByte(pos) + 32
    requires Take(data, NextByte(pos), LEN_BITS)
             == if NextByte(pos) + 16 <= 8 * |data| then Some((len, NextByte(pos) + 16)) else None
    requires Take(data, NextByte(pos) + 16, LEN_BITS)
             == if NextByte(pos) + 32 <= 8 * |data| then Some((nlen, NextByte(pos) + 32)) else None
    ensures Stored(data, pos, out) ==
            if len + nlen == LEN_SUM && start + len <= |data|
              then Some((8 * (start + len), out + file[start..start + len]))
            else None
  {
    hide Take;
    if start + len <= |data| {
      assert data[start..start + len] == file[start..start + len];
    }
  }

  // ---------- compressed blocks ----------

  /** The tables of a compressed block: none for the fixed codes. */
  datatype Codes = Fixed | Dynamic(lcodes: HuffmanCodeTable, dcodes: HuffmanCodeTable) {
    ghost predicate For(lit: Lengths, dist: Lengths)
      reads if Dynamic? then {lcodes.entries, dcodes.entries} else {}
    {
      match this
      case Fixed => lit == FixedLit() && dist == FixedDist()
      case Dynamic(l, d) => !Oversubscribed(lit) && !Oversubscribed(dist) && l.Decodes(lit) && d.Decodes(dist)
    }

    ghost function Arrays(): set<object> {
      if Dynamic? then {lcodes.entries, dcodes.entries} else {}
    }
  }

  method FixedLitLen(s: InflaterState) returns (litxlen: nat)
    requires s.Valid() && 9 <= s.inDataSize
    modifies s`inDataSize, s`inData
    ensures s.Valid() && old(s.inDataSize) - 9 <= s.inDataSize <= old(s.inDataSize)
    ensures Symbol(FixedLit(), s.file, s.Data(), old(s.Pos()), Some(litxlen), s.Pos())
  {
    hide Window, Msb, FixedLit, Matches, Symbol, Reverse9Bits;
    var code := s.NextBits(9);
    ReversedWindow9(s.file, s.Pos());
    code := Reverse9Bits(code);
    FixedLitSymbol(s.file, s.Data(), s.Pos(), code);
    if code < 0x060 {
      s.DumpBits(7);
      litxlen := 0x100 + code / 4;
    } else if code < 0x190 {
      s.DumpBits(8);
      litxlen := if code < 0x180 then code / 2 - 0x030 else code / 2 + (0x118 - 0x0c0);
    } else {
      s.DumpBits(9);
      litxlen := 0x90 + code - 0x190;
    }
  }

  lemma FixedLitSymbol(file: seq<Byte>, data: seq<Byte>, pos: nat, code: nat)
    requires data <= file && code == Msb(file, pos, 9)
    ensures code < 0x200
    ensures Symbol(FixedLit(), file, data, pos, Some(FixedSymbol(code).0), pos + FixedSymbol(code).1)
  {
    hide Window, Msb, FixedLit, FixedSymbol, Matches, Symbol, Oversubscribed;
    FixedSymbolMatches(file, pos, 9);
    FixedLitComplete();
    MatchIsSymbol(FixedLit(), file, data, pos, FixedSymbol(code).0);
  }

  method FixedDistance(s: InflaterState) returns (d0: nat)
    requires s.Valid() && 5 <= s.inDataSize
    modifies s`inDataSize, s`inData
    ensures s.Valid() && old(s.inDataSize) - 5 <= s.inDataSize <= old(s.inDataSize)
    ensures Symbol(FixedDist(), s.file, s.Data(), old(s.Pos()), Some(d0), s.Pos())
  {
    hide Window, Msb, FixedDist, Matches, Symbol, Reverse5Bits;
    ReversedWindow5(s.file, s.Pos(), 4);
    d0 := Reverse5Bits(s.NextBits(5));
    FixedDistMatches(s.file, s.Pos(), 5);
    FixedDistComplete();
    MatchIsSymbol(FixedDist(), s.file, s.Data(), s.Pos(), d0);
    s.DumpBits(5);
  }

  method NextLitLen(s: InflaterState, codes: Codes, ghost lit: Lengths, ghost dist: Lengths) returns (r: Option<nat>)
    requires s.Valid() && MAX_BITS <= s.inDataSize && codes.For(lit, dist)
    modifies s`inDataSize, s`inData
    ensures s.Valid() && old(s.inDataSize) - MAX_BITS <= s.inDataSize <= old(s.inDataSize)
    ensures Symbol(lit, s.file, s.Data(), old(s.Pos()), r, s.Pos())
  {
    hide Symbol, FixedLit, FixedDist;
    match codes
    case Fixed =>
      var litxlen := FixedLitLen(s);
      r := Some(litxlen);
    case Dynamic(lcodes, _) =>
      r := s.GetHuffmanEntry(lcodes, lit);
  }

  method NextDistance(s: InflaterState, codes: Codes, ghost lit: Lengths, ghost dist: Lengths) returns (r: Option<nat>)
    requires s.Valid() && MAX_BITS <= s.inDataSize && codes.For(lit, dist)
    modifies s`inDataSize, s`inData
    ensures s.Valid() && old(s.inDataSize) - MAX_BITS <= s.inDataSize <= old(s.inDataSize)
    ensures Symbol(dist, s.file, s.Data(), old(s.Pos()), r, s.Pos())
  {
    hide Symbol, FixedLit, FixedDist;
    match codes
    case Fixed =>
      var d0 := FixedDistance(s);
      r := Some(d0);
    case Dynamic(_, dcodes) =>
      r := s.GetHuffmanEntry(dcodes, dist);
  }

  const CODELEN_SIZE: nat := 286 + 32
  const MAX_ZIP_EXTRA_LENGTH_BITS: nat := 5
  const MAX_ZIP_EXTRA_DISTANCE_BITS: nat := 13

  lemma TableBounds(n: nat)
    ensures |LENGTH_BASE| == |LENGTH_EXTRA| == MAX_LENGTH_CODE - END_OF_BLOCK
    ensures n < |LENGTH_EXTRA| ==> LENGTH_EXTRA[n] <= MAX_ZIP_EXTRA_LENGTH_BITS
    ensures |DIST_BASE| == |DIST_EXTRA| == MAX_DISTANCE_CODE + 1
    ensures n < |DIST_EXTRA| ==> DIST_EXTRA[n] <= MAX_ZIP_EXTRA_DISTANCE_BITS
  {}

  /** The length that a length symbol stands for, with its extra bits. */
  method LengthOf(s: InflaterState, litxlen: nat) returns (length: nat)
    requires s.Valid() && MAX_ZIP_EXTRA_LENGTH_BITS <= s.inDataSize && END_OF_BLOCK < litxlen <= MAX_LENGTH_CODE
    modifies s`inDataSize, s`inData
    ensures s.Valid() && s.Pos() >= old(s.Pos()) && s.inDataSize <= old(s.inDataSize)
    ensures ReadLength(s.Data(), old(s.Pos()), litxlen) == if s.Pos() <= 8 * s.compLen then Some((length, s.Pos()))
            else None
  {
    hide Take, Window, Shl;
    var n := litxlen - END_OF_BLOCK - 1;
    TableBounds(n);
    hide LENGTH_EXTRA, LENGTH_BASE;
    var extra := s.TakeBits(LENGTH_EXTRA[n]);
    length := LENGTH_BASE[n] + extra;
  }

  /** Decodes a distance: nothing if there is no such code. */
  method DistanceOf(s: InflaterState, codes: Codes, ghost lit: Lengths, ghost dist: Lengths) returns (r: Option<nat>)
    requires s.Settled() && codes.For(lit, dist)
    modifies s`inPos, s`inRemaining, s`inDataSize, s`inData
    ensures s.Settled() && s.Pos() >= old(s.Pos()) && (r.Some? ==> r.value >= 1)
    ensures r.None? ==> ReadDistance(dist, s.Data(), old(s.Pos())) == None
    ensures r.Some? ==>
              ReadDistance(dist, s.Data(), old(s.Pos())) == if s.Pos() <= 8 * s.compLen then Some((r.value, s.Pos()))
                else None
  {
    hide Take, Window, Shl, Decode, FixedLit, FixedDist, Oversubscribed;
    s.NeedBits(MAX_BITS);
    var d0 := NextDistance(s, codes, lit, dist);
    if d0 == None || d0.value > MAX_DISTANCE_CODE {
      return None;
    }
    s.NeedBits(MAX_ZIP_EXTRA_DISTANCE_BITS);
    TableBounds(d0.value);
    BaseAtLeastOne(d0.value);
    hide DIST_EXTRA, DIST_BASE;
    var extra := s.TakeBits(DIST_EXTRA[d0.value]);
    return Some(DIST_BASE[d0.value] + extra);
  }

  lemma BaseAtLeastOne(n: nat)
    requires n < |DIST_BASE|
    ensures DIST_BASE[n] >= 1
  {}

  /** Writes one byte if there is room. */
  method PutByte(s: InflaterState, b: Byte) returns (ok: bool)
    requires s.Valid()
    modifies s`out, s.buffer
    ensures s.Valid() && ok == (old(s.out) < s.outEnd) && s.Pos() == old(s.Pos())
    ensures s.Output() == if ok then old(s.Output()) + [b] else old(s.Output())
    ensures forall i :: s.out <= i < s.buffer.Length ==> s.buffer[i] == old(s.buffer[i])
  {
    hide Window;
    ok := s.out < s.outEnd;
    if ok {
      s.buffer[s.out] := b;
      s.out := s.out + 1;
      assert s.buffer[..s.out - 1] == old(s.buffer[..s.out]);
    }
  }

  /** The byte-by-byte copy, whose source may overlap what it writes. */
  method CopyBack(s: InflaterState, distance: nat, length: nat)
    requires s.Valid() && 1 <= distance <= s.out && s.out + length <= s.outEnd
    modifies s`out, s.buffer
    ensures s.Valid() && s.Pos() == old(s.Pos()) && s.out == old(s.out) + length
    ensures s.Output() == CopyMatch(old(s.Output()), distance, length)
    ensures forall i :: s.out <= i < s.buffer.Length ==> s.buffer[i] == old(s.buffer[i])
  {
    hide Window, CopyMatch;
    var prev, end := s.out - distance, s.out + length;
    while s.out != end
      invariant s.Valid() && old(s.out) <= s.out <= end && prev == s.out - distance
      invariant s.Pos() == old(s.Pos())
      invariant CopyMatch(s.Output(), distance, end - s.out) == CopyMatch(old(s.Output()), distance, length)
      invariant forall i :: s.out <= i < s.buffer.Length ==> s.buffer[i] == old(s.buffer[i])
      decreases end - s.out
    {
      ghost var before := s.Output();
      CopyMatchStep(before, distance, end - s.out);
      s.buffer[s.out] := s.buffer[prev];
      s.out := s.out + 1;
      prev := prev + 1;
      assert s.Output() == before + [before[|before| - distance]];
    }
    CopyMatchNone(s.Output(), distance);
  }

  lemma CopyMatchStep(out: seq<Byte>, distance: nat, length: nat)
    requires 1 <= distance <= |out| && length > 0
    ensures CopyMatch(out, distance, length) == CopyMatch(out + [out[|out| - distance]], distance, length - 1)
  {}

  lemma CopyMatchNone(out: seq<Byte>, distance: nat)
    requires 1 <= distance <= |out|
    ensures CopyMatch(out, distance, 0) == out
  {}

  datatype Step = More | EndOfBlock | Bad

  /** What a step says of the block from `pos` on, given the position and output after it. */
  ghost predicate StepTracks(lit: Lengths, dist: Lengths, data: seq<Byte>, pos: nat, out: seq<Byte>,
                             step: Step, pos': nat, out': seq<Byte>, room: nat) {
    var r := Symbols(lit, dist, data, pos, out);
    match step
    case More => pos < pos' && r == Symbols(lit, dist, data, pos', out')
    case EndOfBlock => pos < pos' && r == if pos' <= 8 * |data| then Some((pos', out')) else None
    case Bad => r.Some? ==> |r.value.1| > room
  }

  lemma SymbolsPastEnd(lit: Lengths, dist: Lengths, data: seq<Byte>, pos: nat, out: seq<Byte>)
    requires pos >= 8 * |data|
    ensures Symbols(lit, dist, data, pos, out) == None
  {
    hide Decode;
    DecodePastEnd(lit, data, pos);
  }

  /** A step that decoded no length. */
  lemma LiteralStep(lit: Lengths, dist: Lengths, file: seq<Byte>, data: seq<Byte>, pos: nat, out: seq<Byte>,
                    sym: Option<nat>, end: nat, room: nat)
    requires Symbol(lit, file, data, pos, sym, end) && |out| <= room
    ensures sym == None ==> StepTracks(lit, dist, data, pos, out, Bad, end, out, room)
    ensures sym.Some? && sym.value < END_OF_BLOCK && |out| < room ==>
              StepTracks(lit, dist, data, pos, out, More, end, out + [sym.value], room)
    ensures sym.Some? && sym.value < END_OF_BLOCK && |out| == room ==>
              StepTracks(lit, dist, data, pos, out, Bad, end, out, room)
    ensures sym == Some(END_OF_BLOCK) ==> StepTracks(lit, dist, data, pos, out, EndOfBlock, end, out, room)
    ensures sym.Some? && sym.value > MAX_LENGTH_CODE ==> StepTracks(lit, dist, data, pos, out, Bad, end, out, room)
  {
    hide Decode, ReadLength, ReadDistance;
    if sym.Some? && sym.value < END_OF_BLOCK && end > 8 * |data| {
      SymbolsPastEnd(lit, dist, data, end, out + [sym.value]);
    }
  }

  /** A step that decoded a length symbol: the block is what its length and distance make of it. */
  lemma MatchStep(lit: Lengths, dist: Lengths, file: seq<Byte>, data: seq<Byte>, pos: nat, out: seq<Byte>,
                  sym: nat, next: nat, length: nat, mid: nat, distance: Option<nat>, end: nat)
    requires Symbol(lit, file, data, pos, Some(sym), next) && END_OF_BLOCK < sym <= MAX_LENGTH_CODE
    requires ReadLength(data, next, sym) == if mid <= 8 * |data| then Some((length, mid)) else None
    requires next <= mid <= end
    requires distance.None? ==> ReadDistance(dist, data, mid) == None
    requires distance.Some? ==> distance.value >= 1
    requires distance.Some? ==>
               ReadDistance(dist, data, mid) == if end <= 8 * |data| then Some((distance.value, end)) else None
    ensures distance.None? || distance.value > |out| ==> Symbols(lit, dist, data, pos, out) == None
    ensures distance.Some? && distance.value <= |out| ==>
              Symbols(lit, dist, data, pos, out)
              == Symbols(lit, dist, data, end, CopyMatch(out, distance.value, length))
  {
    hide Decode, ReadLength, ReadDistance;
    if distance.Some? && distance.value <= |out| && end > 8 * |data| {
      SymbolsPastEnd(lit, dist, data, end, CopyMatch(out, distance.value, length));
    }
  }

  /** Decodes one symbol and writes what it stands for. */
  method OneSymbol(s: InflaterState, codes: Codes, ghost lit: Lengths, ghost dist: Lengths) returns (step: Step)
    requires s.Settled() && codes.For(lit, dist) && s.buffer !in codes.Arrays()
    modifies s, s.buffer
    ensures s.Settled() && s.out >= old(s.out)
    ensures StepTracks(lit, dist, s.Data(), old(s.Pos()), old(s.Output()), step, s.Pos(), s.Output(), s.outEnd)
    ensures forall i :: s.out <= i < s.buffer.Length ==> s.buffer[i] == old(s.buffer[i])
  {
    hide Window, Decode, Symbol, Symbols, StepTracks, ReadLength, ReadDistance, CopyMatch, FixedLit, FixedDist,
         Oversubscribed, Take;
    ghost var pos, out0, data := s.Pos(), s.Output(), s.Data();
    s.NeedBits(MAX_BITS + MAX_ZIP_EXTRA_LENGTH_BITS);
    var sym := NextLitLen(s, codes, lit, dist);
    ghost var next := s.Pos();
    LiteralStep(lit, dist, s.file, data, pos, out0, sym, next, s.outEnd);
    if sym == None {
      return Bad;
    }
    var litxlen := sym.value;
    if litxlen < END_OF_BLOCK {
      var ok := PutByte(s, litxlen);
      return if ok then More else Bad;
    } else if litxlen == END_OF_BLOCK {
      return EndOfBlock;
    } else if litxlen > MAX_LENGTH_CODE {
      return Bad;
    }
    var length := LengthOf(s, litxlen);
    ghost var mid := s.Pos();
    var distance := DistanceOf(s, codes, lit, dist);
    MatchStep(lit, dist, s.file, data, pos, out0, litxlen, next, length, mid, distance, s.Pos());
    SymbolAdvances(lit, s.file, data, pos, sym, next);
    if distance == None || s.out < distance.value {
      FailedStep(lit, dist, data, pos, out0, s.Pos(), s.outEnd);
      return Bad;
    } else if s.out + length > s.outEnd {
      NoRoom(lit, dist, data, pos, out0, distance.value, length, s.Pos(), s.outEnd);
      return Bad;
    }
    CopyBack(s, distance.value, length);
    MoreStep(lit, dist, data, pos, out0, s.Pos(), s.Output(), s.outEnd);
    return More;
  }

  lemma SymbolAdvances(lens: Lengths, file: seq<Byte>, data: seq<Byte>, pos: nat, r: Option<nat>, end: nat)
    requires Symbol(lens, file, data, pos, r, end) && r.Some?
    ensures pos < end
  {
    hide Decode;
  }

  lemma FailedStep(lit: Lengths, dist: Lengths, data: seq<Byte>, pos: nat, out: seq<Byte>, end: nat, room: nat)
    requires Symbols(lit, dist, data, pos, out) == None
    ensures StepTracks(lit, dist, data, pos, out, Bad, end, out, room)
  {
    hide Symbols;
  }

  lemma NoRoom(lit: Lengths, dist: Lengths, data: seq<Byte>, pos: nat, out: seq<Byte>, distance: nat, length: nat,
               end: nat, room: nat)
    requires 1 <= distance <= |out| && |out| + length > room
    requires Symbols(lit, dist, data, pos, out) == Symbols(lit, dist, data, end, CopyMatch(out, distance, length))
    ensures StepTracks(lit, dist, data, pos, out, Bad, end, out, room)
  {
    hide Decode, ReadLength, ReadDistance, CopyMatch;
  }

  lemma MoreStep(lit: Lengths, dist: Lengths, data: seq<Byte>, pos: nat, out: seq<Byte>, end: nat, out': seq<Byte>,
                 room: nat)
    requires pos < end && Symbols(lit, dist, data, pos, out) == Symbols(lit, dist, data, end, out')
    ensures StepTracks(lit, dist, data, pos, out, More, end, out', room)
  {
    hide Symbols;
  }

  /** Decodes symbols up to the end of the block. */
  method DecodeSymbols(s: InflaterState, codes: Codes, ghost lit: Lengths, ghost dist: Lengths) returns (noerror: bool)
    requires s.Settled() && codes.For(lit, dist) && s.buffer !in codes.Arrays()
    modifies s, s.buffer
    ensures s.Settled() && s.out >= old(s.out)
    ensures Tracks(Symbols(lit, dist, s.Data(), old(s.Pos()), old(s.Output())), noerror,
                   8 * s.compLen, s.Pos(), s.Output(), s.outEnd)
    ensures noerror ==> s.Pos() > old(s.Pos())
    ensures forall i :: s.out <= i < s.buffer.Length ==> s.buffer[i] == old(s.buffer[i])
  {
    hide Window, Symbols, FixedLit, FixedDist, Oversubscribed;
    ghost var r := Symbols(lit, dist, s.Data(), s.Pos(), s.Output());
    while true
      invariant s.Settled() && codes.For(lit, dist) && s.out >= old(s.out) && s.Pos() >= old(s.Pos())
      invariant r == Symbols(lit, dist, s.Data(), s.Pos(), s.Output())
      invariant forall i :: s.out <= i < s.buffer.Length ==> s.buffer[i] == old(s.buffer[i])
      decreases 8 * (s.compLen + 8) - s.Pos()
    {
      if s.inRemaining < 0 {
        SymbolsPastEnd(lit, dist, s.Data(), s.Pos(), s.Output());
        return false;
      }
      var step := OneSymbol(s, codes, lit, dist);
      if step != More {
        return step.EndOfBlock?;
      }
    }
  }

  // ---------- dynamic headers ----------

  /** How reading the dynamic tables ends; out of bounds is where the C program writes past the
      array of code lengths. */
  datatype Status = Fine | Faulty | OutOfBounds

  /** HLIT, HDIST and HCLEN. */
  method ReadCountFields(s: InflaterState) returns (hlit: nat, hdist: nat, hclen: nat)
    requires s.Settled()
    modifies s`inPos, s`inRemaining, s`inDataSize, s`inData
    ensures s.Settled() && s.Pos() == old(s.Pos()) + 14
    ensures 257 <= hlit <= 288 && 1 <= hdist <= 32 && 4 <= hclen <= 19
    ensures ReadCounts(s.Data(), old(s.Pos())) == if s.Pos() <= 8 * s.compLen then Some((hlit, hdist, hclen, s.Pos()))
            else None
  {
    hide Window, Take;
    Powers();
    hide Shl;
    s.NeedBits(14);
    hlit := s.TakeBits(5);
    hdist := s.TakeBits(5);
    hclen := s.TakeBits(4);
    hlit, hdist, hclen := 257 + hlit, 1 + hdist, 4 + hclen;
  }

  /** The lengths of the code-length codes. */
  method ReadCodeLengthLengths(s: InflaterState, hclen: nat) returns (ok: bool, lens: seq<nat>)
    requires s.Settled() && hclen <= 19
    modifies s`inPos, s`inRemaining, s`inDataSize, s`inData
    ensures s.Settled() && (ok ==> s.Pos() == old(s.Pos()) + 3 * hclen)
    ensures |lens| == 19 && forall k :: 0 <= k < 19 ==> lens[k] <= 7
    ensures old(s.Pos()) <= 8 * s.compLen ==>
              CodeLengthLengths(s.Data(), old(s.Pos()), hclen, 0, Repeat(0, 19))
              == if ok && s.Pos() <= 8 * s.compLen then Some((lens, s.Pos())) else None
  {
    hide Window, Take, CodeLengthLengths;
    Powers();
    hide Shl;
    ghost var r := CodeLengthLengths(s.Data(), s.Pos(), hclen, 0, Repeat(0, 19));
    lens := Repeat(0, 19);
    OrderBounds();
    for i := 0 to hclen
      invariant s.Settled() && s.Pos() == old(s.Pos()) + 3 * i
      invariant |lens| == 19 && forall k :: 0 <= k < 19 ==> lens[k] <= 7
      invariant s.Pos() <= 8 * s.compLen ==> r == CodeLengthLengths(s.Data(), s.Pos(), hclen, i, lens)
      invariant old(s.Pos()) <= 8 * s.compLen < s.Pos() ==> r == None
    {
      ghost var pos := s.Pos();
      s.NeedBits(3);
      if s.inRemaining < 0 {
        ReadTooFar(s.Data(), s.Pos(), hclen, i, lens);
        return false, lens;
      }
      var len := s.TakeBits(3);
      CodeLengthLengthsStep(s.Data(), pos, hclen, i, lens, len, s.Pos());
      lens := lens[CODE_LENGTH_ORDER[i] := len];
    }
    CodeLengthLengthsDone(s.Data(), s.Pos(), hclen, lens);
    return true, lens;
  }

  lemma OrderBounds()
    ensures |CODE_LENGTH_ORDER| == 19 && forall i :: 0 <= i < 19 ==> CODE_LENGTH_ORDER[i] < 19
  {}

  lemma CodeLengthLengthsDone(data: seq<Byte>, pos: nat, n: nat, lens: seq<nat>)
    requires n <= 19 == |lens| && forall k :: 0 <= k < 19 ==> lens[k] <= 7
    ensures CodeLengthLengths(data, pos, n, n, lens) == Some((lens, pos))
  {}

  lemma CodeLengthLengthsStep(data: seq<Byte>, pos: nat, n: nat, i: nat, lens: seq<nat>, len: nat, next: nat)
    requires i < n <= 19 == |lens| && (forall k :: 0 <= k < 19 ==> lens[k] <= 7) && len <= 7
    requires |CODE_LENGTH_ORDER| == 19 && CODE_LENGTH_ORDER[i] < 19
    requires Take(data, pos, 3) == if next <= 8 * |data| then Some((len, next)) else None
    ensures CodeLengthLengths(data, pos, n, i, lens)
         == if next <= 8 * |data| then CodeLengthLengths(data, next, n, i + 1, lens[CODE_LENGTH_ORDER[i] := len])
           else None
  {
    hide Take, CODE_LENGTH_ORDER;
  }

  lemma ReadTooFar(data: seq<Byte>, pos: nat, n: nat, i: nat, lens: seq<nat>)
    requires i < n <= 19 == |lens| && (forall k :: 0 <= k < 19 ==> lens[k] <= 7) && pos > 8 * |data|
    ensures CodeLengthLengths(data, pos, n, i, lens) == None
  {
    hide CODE_LENGTH_ORDER;
  }

  /** The array holds the lengths read so far, and zeros. */
  ghost predicate HoldsLengths(codelen: array<nat>, l: LengthList)
    reads codelen
  {
    && codelen.Length == CODELEN_SIZE && l.written <= |l.lens| && l.written <= CODELEN_SIZE
    && (forall k :: 0 <= k < |l.lens| ==> l.lens[k] <= MAX_BITS)
    && (forall k :: 0 <= k < CODELEN_SIZE ==> codelen[k] == if k < |l.lens| then l.lens[k] else 0)
  }

  /** What one run says of the lengths from `l` on. */
  ghost predicate RunTracks(cl: Lengths, data: seq<Byte>, l: LengthList, status: Status, l': LengthList)
    requires forall k :: 0 <= k < |l.lens| ==> l.lens[k] <= MAX_BITS
  {
    var r := NextLengths(cl, data, l);
    match status
    case Fine => |l.lens| < |l'.lens| && l.pos < l'.pos && r == if l'.pos <= 8 * |data| then Some(l') else None
    case Faulty => r == None
    case OutOfBounds => r.Some? ==> r.value.written > CODELEN_SIZE
  }

  /** Stores one code length. */
  method StoreLength(codelen: array<nat>, codePtr: nat, val: nat, ghost l: LengthList, ghost pos: nat)
      returns (status: Status, ghost l': LengthList)
    requires HoldsLengths(codelen, l) && codePtr == |l.lens| && val <= MAX_BITS
    modifies codelen
    ensures status == if codePtr < CODELEN_SIZE then Fine else OutOfBounds
    ensures status == Fine ==> l' == LengthList(l.lens + [val], pos, |l.lens| + 1) && HoldsLengths(codelen, l')
  {
    l' := LengthList(l.lens + [val], pos, |l.lens| + 1);
    if codePtr >= codelen.Length {
      return OutOfBounds, l';
    }
    codelen[codePtr] := val;
    return Fine, l';
  }

  /** Stores a run: a repeated length is written out, zeros are only skipped. */
  method StoreRun(codelen: array<nat>, codePtr: nat, sym: nat, repeat: nat, ghost l: LengthList, ghost pos: nat)
      returns (status: Status, ghost l': LengthList)
    requires HoldsLengths(codelen, l) && codePtr == |l.lens| && 16 <= sym <= 18
    modifies codelen
    ensures status == if sym == 16 && codePtr == 0 then Faulty
                      else if sym == 16 && codePtr + repeat > CODELEN_SIZE then OutOfBounds else Fine
    ensures status == Fine ==> l' == RunResult(l, sym, repeat, pos) && HoldsLengths(codelen, l')
  {
    l' := l;
    if sym == 16 {
      if codePtr == 0 {
        return Faulty, l';
      }
      if codePtr + repeat > codelen.Length {
        return OutOfBounds, l';
      }
      var previous := codelen[codePtr - 1];
      forall k | codePtr <= k < codePtr + repeat {
        codelen[k] := previous;
      }
    }
    l' := RunResult(l, sym, repeat, pos);
    return Fine, l';
  }

  /** Reads one code length, or one run of them, into the array. */
  method NextRun(s: InflaterState, ccodes: HuffmanCodeTable, ghost cl: Lengths, codelen: array<nat>, codePtr: nat,
                 ghost l: LengthList) returns (status: Status, next: nat, ghost l': LengthList)
    requires s.Settled() && !Oversubscribed(cl) && ccodes.Decodes(cl) && codelen != ccodes.entries
    requires HoldsLengths(codelen, l) && codePtr == |l.lens| && l.pos == s.Pos()
    modifies s`inPos, s`inRemaining, s`inDataSize, s`inData, codelen
    ensures s.Settled() && RunTracks(cl, s.Data(), l, status, l')
    ensures status == Fine ==> HoldsLengths(codelen, l') && next == |l'.lens| && l'.pos == s.Pos()
  {
    hide Window, Take, Decode, Oversubscribed, Symbol, RunTracks, HoldsLengths;
    HoldsBounds(codelen, l);
    ghost var data := s.Data();
    l', next := l, codePtr;
    s.NeedBits(MAX_BITS + 7);
    var val := s.GetHuffmanEntry(ccodes, cl);
    ghost var mid := s.Pos();
    LiteralRun(cl, s.file, data, l, val, mid);
    if val == None || val.value > 18 {
      return Faulty, next, l';
    }
    if val.value <= 15 {
      status, l' := StoreLength(codelen, codePtr, val.value, l, mid);
      return status, codePtr + 1, if status == Fine then l' else l;
    }
    var repeat := if val.value == 18 then 11 else 3;
    var extra := s.TakeBits(RunBits(val.value));
    RepeatRun(cl, s.file, data, l, val.value, mid, extra, s.Pos());
    status, l' := StoreRun(codelen, codePtr, val.value, repeat + extra, l, s.Pos());
    return status, codePtr + repeat + extra, if status == Fine then l' else l;
  }

  lemma HoldsBounds(codelen: array<nat>, l: LengthList)
    requires HoldsLengths(codelen, l)
    ensures forall k :: 0 <= k < |l.lens| ==> l.lens[k] <= MAX_BITS
  {}

  /** The extra bits of a run: two, three and seven. */
  function RunBits(sym: nat): (n: nat)
    requires 16 <= sym <= 18
    ensures n <= 7
  {
    if sym == 18 then 7 else sym - 14
  }

  /** The lengths after a run. */
  function RunResult(l: LengthList, sym: nat, repeat: nat, pos: nat): LengthList
    requires 16 <= sym <= 18 && (sym == 16 ==> l.lens != [])
  {
    if sym == 16 then LengthList(l.lens + Repeat(l.lens[|l.lens| - 1], repeat), pos, |l.lens| + repeat)
    else LengthList(l.lens + Repeat(0, repeat), pos, l.written)
  }

  lemma LiteralRun(cl: Lengths, file: seq<Byte>, data: seq<Byte>, l: LengthList, val: Option<nat>, mid: nat)
    requires forall k :: 0 <= k < |l.lens| ==> l.lens[k] <= MAX_BITS
    requires Symbol(cl, file, data, l.pos, val, mid)
    ensures val == None || val.value > 18 ==> RunTracks(cl, data, l, Faulty, l)
    ensures val.Some? && val.value <= 15 ==>
              RunTracks(cl, data, l, Fine, LengthList(l.lens + [val.value], mid, |l.lens| + 1))
    ensures val.Some? && val.value <= 15 && |l.lens| >= CODELEN_SIZE ==> RunTracks(cl, data, l, OutOfBounds, l)
  {
    hide Decode, Take, Repeat;
  }

  lemma RepeatRun(cl: Lengths, file: seq<Byte>, data: seq<Byte>, l: LengthList, sym: nat, mid: nat, extra: nat,
                  end: nat)
    requires forall k :: 0 <= k < |l.lens| ==> l.lens[k] <= MAX_BITS
    requires Symbol(cl, file, data, l.pos, Some(sym), mid) && 16 <= sym <= 18 && mid <= end
    requires Take(data, mid, RunBits(sym)) == if end <= 8 * |data| then Some((extra, end)) else None
    ensures sym == 16 && l.lens == [] ==> RunTracks(cl, data, l, Faulty, l)
    ensures sym != 16 || l.lens != [] ==>
              RunTracks(cl, data, l, Fine, RunResult(l, sym, (if sym == 18 then 11 else 3) + extra, end))
    ensures sym == 16 && |l.lens| + 3 + extra > CODELEN_SIZE ==> RunTracks(cl, data, l, OutOfBounds, l)
  {
    hide Decode, Take, Repeat;
  }

  /** Reads code lengths until there are `total` of them. */
  method ReadCodeLengths(s: InflaterState, ccodes: HuffmanCodeTable, ghost cl: Lengths, codelen: array<nat>, total: nat)
      returns (status: Status, ghost l: LengthList)
    requires s.Settled() && !Oversubscribed(cl) && ccodes.Decodes(cl) && codelen != ccodes.entries
    requires codelen.Length == CODELEN_SIZE && forall k :: 0 <= k < CODELEN_SIZE ==> codelen[k] == 0
    modifies s`inPos, s`inRemaining, s`inDataSize, s`inData, codelen
    ensures s.Settled()
    ensures status == Fine ==>
              s.Pos() >= old(s.Pos()) && HoldsLengths(codelen, l) && l.pos == s.Pos() && total <= |l.lens|
    ensures status == Fine ==>
              ReadLengths(cl, s.Data(), total, LengthList([], old(s.Pos()), 0))
              == if s.Pos() <= 8 * s.compLen || total == 0 then Some(l) else None
    ensures status == Faulty ==> ReadLengths(cl, s.Data(), total, LengthList([], old(s.Pos()), 0)) == None
    ensures status == OutOfBounds ==>
              var r := ReadLengths(cl, s.Data(), total, LengthList([], old(s.Pos()), 0));
              r.Some? ==> r.value.written > CODELEN_SIZE
  {
    hide Window, Decode, Oversubscribed, NextLengths, ReadLengths, HoldsLengths;
    l := LengthList([], s.Pos(), 0);
    ghost var r := ReadLengths(cl, s.Data(), total, l);
    var codePtr := 0;
    HoldsStart(codelen, l);
    while codePtr < total
      invariant s.Settled() && HoldsLengths(codelen, l) && codePtr == |l.lens| && l.pos == s.Pos() >= old(s.Pos())
      invariant HoldsList(l)
      invariant r == ReadLengths(cl, s.Data(), total, l) || (l.pos > 8 * s.compLen && total > 0 && r == None)
    {
      if s.inRemaining < 0 {
        NoMoreLengths(cl, s.Data(), total, l);
        return Faulty, l;
      }
      ghost var before := l;
      status, codePtr, l := NextRun(s, ccodes, cl, codelen, codePtr, l);
      if status == Fine {
        HoldsBoundsList(codelen, l);
      }
      RunStep(cl, s.Data(), total, before, status, l);
      if status != Fine {
        return status, l;
      }
    }
    ReadLengthsDone(cl, s.Data(), total, l);
    return Fine, l;
  }

  ghost predicate HoldsList(l: LengthList) {
    l.written <= |l.lens| && forall k :: 0 <= k < |l.lens| ==> l.lens[k] <= MAX_BITS
  }

  lemma HoldsStart(codelen: array<nat>, l: LengthList)
    requires codelen.Length == CODELEN_SIZE && forall k :: 0 <= k < CODELEN_SIZE ==> codelen[k] == 0
    requires l.lens == [] && l.written == 0
    ensures HoldsLengths(codelen, l)
  {}

  lemma HoldsBoundsList(codelen: array<nat>, l: LengthList)
    requires HoldsLengths(codelen, l)
    ensures HoldsList(l)
  {}

  lemma NoMoreLengths(cl: Lengths, data: seq<Byte>, total: nat, l: LengthList)
    requires HoldsList(l) && |l.lens| < total && l.pos >= 8 * |data|
    ensures ReadLengths(cl, data, total, l) == None
  {
    hide Decode;
    DecodePastEnd(cl, data, l.pos);
  }

  lemma ReadLengthsDone(cl: Lengths, data: seq<Byte>, total: nat, l: LengthList)
    requires HoldsList(l) && total <= |l.lens|
    ensures ReadLengths(cl, data, total, l) == Some(l)
  {}

  lemma RunStep(cl: Lengths, data: seq<Byte>, total: nat, l: LengthList, status: Status, l': LengthList)
    requires HoldsList(l) && |l.lens| < total && RunTracks(cl, data, l, status, l')
    requires status == Fine ==> HoldsList(l')
    ensures status == Fine ==>
              ReadLengths(cl, data, total, l) == if l'.pos <= 8 * |data| then ReadLengths(cl, data, total, l') else None
    ensures status == Faulty ==> ReadLengths(cl, data, total, l) == None
    ensures status == OutOfBounds && ReadLengths(cl, data, total, l).Some? ==>
              ReadLengths(cl, data, total, l).value.written > CODELEN_SIZE
  {
    hide NextLengths;
  }

  /** Builds the tables for the lengths read, or says why it cannot. */
  method MakeTables(codelen: array<nat>, hlit: nat, hdist: nat, ghost h: Header) returns (status: Status, codes: Codes)
    requires HoldsLengths(codelen, h.lengths) && h.hlit == hlit && h.hdist == hdist && hlit <= 288 && hdist <= 32
    requires h.Valid()
    ensures status == Fine <==> Accepts(Program, h)
    ensures status == Fine ==> codes.Dynamic? && fresh(codes.Arrays()) && codes.For(h.Lit(), h.Dist())
  {
    hide OffsetsFit, Oversubscribed;
    codes := Fixed;
    CallSitesFit(hlit);
    assert codelen[..hlit] == h.Lit();
    var lcodes := MakeCodeTable(codelen[..hlit], MAX_QUICK_LXL);
    if lcodes.Undefined? {
      return OutOfBounds, codes;
    }
    if lcodes.EmptyTable? {
      return Faulty, codes;
    }
    if hlit + hdist > codelen.Length {
      return OutOfBounds, codes;
    }
    CallSitesFit(hdist);
    assert codelen[hlit..hlit + hdist] == h.Dist();
    var dcodes := MakeCodeTable(codelen[hlit..hlit + hdist], MAX_QUICK_CXD);
    match dcodes
    case Undefined => return OutOfBounds, codes;
    case EmptyTable => return Faulty, codes;
    case Table(d) => return Fine, Dynamic(lcodes.table, d);
  }

  ghost predicate HeaderRejected(data: seq<Byte>, pos: nat) {
    var r := ReadHeader(data, pos);
    r.Some? ==> !Accepts(Program, r.value)
  }

  ghost predicate HeaderTracks(data: seq<Byte>, pos: nat, h: Header) {
    && h.Valid() && Accepts(Program, h) && pos < h.lengths.pos
    && ReadHeader(data, pos) == if h.lengths.pos <= 8 * |data| then Some(h) else None
  }

  lemma {:induction false} EmptyDecodesNothing(lens: Lengths, s: seq<Byte>, pos: nat)
    requires AllZero(lens)
    ensures Decode(lens, s, pos) == None
  {
    hide Decode, Window, Oversubscribed;
    EmptyNotOversubscribed(lens);
    DecodeFindsMatch(lens, s, pos);
  }

  /** The specification of a header, once its counts and code-length code have been read. */
  lemma HeaderUnfold(data: seq<Byte>, pos: nat, p1: nat, hlit: nat, hdist: nat, hclen: nat,
                     ok: bool, lens: seq<nat>, p2: nat)
    requires hclen <= 19 == |lens| && (forall k :: 0 <= k < 19 ==> lens[k] <= 7) && hlit + hdist > 0
    requires ReadCounts(data, pos) == if p1 <= 8 * |data| then Some((hlit, hdist, hclen, p1)) else None
    requires p1 <= 8 * |data| ==>
               CodeLengthLengths(data, p1, hclen, 0, Repeat(0, 19)) == if ok && p2 <= 8 * |data| then Some((lens, p2))
                 else None
    requires ok ==> p1 <= p2
    ensures !ok || p2 > 8 * |data| || Oversubscribed(lens) || AllZero(lens) ==> ReadHeader(data, pos) == None
    ensures ok && p2 <= 8 * |data| && !Oversubscribed(lens) ==>
              ReadHeader(data, pos) ==
              match ReadLengths(lens, data, hlit + hdist, LengthList([], p2, 0))
              case None => None
              case Some(l) => Some(Header(hlit, hdist, l))
  {
    hide ReadCounts, CodeLengthLengths, Oversubscribed, ReadLengths, Repeat;
    if ok && p2 <= 8 * |data| && AllZero(lens) {
      EmptyHasNoLengths(lens, data, hlit + hdist, LengthList([], p2, 0));
    }
  }

  lemma EmptyHasNoLengths(cl: Lengths, data: seq<Byte>, total: nat, l: LengthList)
    requires AllZero(cl) && l.lens == [] && total > 0
    ensures ReadLengths(cl, data, total, l) == None
  {
    hide Decode;
    EmptyDecodesNothing(cl, data, l.pos);
  }

  /** The header that the lengths `r` make, if they were read within the data. */
  ghost predicate HeaderIs(data: seq<Byte>, pos: nat, hlit: nat, hdist: nat, r: Option<LengthList>, p2: nat)
    requires r.Some? ==> hlit + hdist <= |r.value.lens|
  {
    ReadHeader(data, pos) == if p2 <= 8 * |data| && r.Some? then Some(Header(hlit, hdist, r.value)) else None
  }

  lemma LengthsRejected(data: seq<Byte>, pos: nat, hlit: nat, hdist: nat, r: Option<LengthList>, p2: nat)
    requires r.Some? ==> hlit + hdist <= |r.value.lens| && r.value.written > CODELEN_SIZE
    requires HeaderIs(data, pos, hlit, hdist, r, p2)
    ensures HeaderRejected(data, pos)
  {
    hide ReadHeader, Oversubscribed;
  }

  lemma TablesTrack(data: seq<Byte>, pos: nat, h: Header, r: Option<LengthList>, p2: nat, fine: bool)
    requires h.Valid() && pos < p2 <= h.lengths.pos && (r.Some? ==> r.value == h.lengths)
    requires r.None? ==> h.lengths.pos > 8 * |data|
    requires r.Some? ==> h.lengths.pos <= 8 * |data|
    requires HeaderIs(data, pos, h.hlit, h.hdist, r, p2)
    ensures fine && Accepts(Program, h) ==> HeaderTracks(data, pos, h)
    ensures !fine && !Accepts(Program, h) ==> HeaderRejected(data, pos)
  {
    hide ReadHeader, Accepts;
  }

  /** Decodes the header of a dynamic block and builds its tables. */
  method DecodeDynamicHuffmanTables(s: InflaterState) returns (status: Status, codes: Codes, ghost h: Header)
    requires s.Settled()
    modifies s`inPos, s`inRemaining, s`inDataSize, s`inData
    ensures s.Settled()
    ensures status != Fine ==> HeaderRejected(s.Data(), old(s.Pos()))
    ensures status == Fine ==> codes.Dynamic? && fresh(codes.Arrays())
    ensures status == Fine ==> HeaderTracks(s.Data(), old(s.Pos()), h) && h.lengths.pos == s.Pos()
    ensures status == Fine ==> codes.For(h.Lit(), h.Dist())
  {
    hide Window, Oversubscribed, OffsetsFit, ReadCounts, CodeLengthLengths, ReadLengths, HoldsLengths, ReadHeader;
    hide Accepts;
    ghost var pos, data := s.Pos(), s.Data();
    codes, h := Fixed, Header(0, 0, LengthList([], 0, 0));
    var hlit, hdist, hclen := ReadCountFields(s);
    ghost var p1 := s.Pos();
    var ok, lens := ReadCodeLengthLengths(s, hclen);
    ghost var p2 := s.Pos();
    HeaderUnfold(data, pos, p1, hlit, hdist, hclen, ok, lens, p2);
    if !ok {
      return Faulty, codes, h;
    }
    CallSitesFit(19);
    var ccodes := MakeCodeTable(lens, MAX_QUICK_CXD);
    if !ccodes.Table? {
      return if ccodes.EmptyTable? then Faulty else OutOfBounds, codes, h;
    }
    var codelen := new nat[CODELEN_SIZE](_ => 0);
    ghost var l;
    status, l := ReadCodeLengths(s, ccodes.table, lens, codelen, hlit + hdist);
    ghost var r := ReadLengths(lens, data, hlit + hdist, LengthList([], p2, 0));
    if status != Fine {
      LengthsRejected(data, pos, hlit, hdist, r, p2);
      return status, codes, h;
    }
    h := Header(hlit, hdist, l);
    HoldsBounds(codelen, l);
    status, codes := MakeTables(codelen, hlit, hdist, h);
    TablesTrack(data, pos, h, r, p2, status == Fine);
  }

  // ---------- blocks and whole streams ----------

  /** A body of compressed symbols, under fixed or dynamic codes. */
  method InflateHuffman(s: InflaterState, fixedHuffman: bool) returns (ok: bool)
    requires s.Settled()
    modifies s, s.buffer
    ensures s.Settled() && s.out >= old(s.out) && (ok ==> s.Pos() > old(s.Pos()))
    ensures Tracks(Body(Program, if fixedHuffman then 1 else 2, s.Data(), old(s.Pos()), old(s.Output())), ok,
                   8 * s.compLen, s.Pos(), s.Output(), s.outEnd)
    ensures forall i :: s.out <= i < s.buffer.Length ==> s.buffer[i] == old(s.buffer[i])
  {
    hide Window, Symbols, FixedLit, FixedDist, Oversubscribed, ReadHeader, Accepts;
    ghost var pos, out0, data := s.Pos(), s.Output(), s.Data();
    if fixedHuffman {
      ok := DecodeSymbols(s, Fixed, FixedLit(), FixedDist());
    } else {
      var status, codes, h := DecodeDynamicHuffmanTables(s);
      if status != Fine {
        return false;
      }
      DynamicUnfold(data, pos, out0, h);
      ok := DecodeSymbols(s, codes, h.Lit(), h.Dist());
    }
  }

  lemma DynamicUnfold(data: seq<Byte>, pos: nat, out: seq<Byte>, h: Header)
    requires HeaderTracks(data, pos, h)
    ensures DynamicBody(Program, data, pos, out) == Symbols(h.Lit(), h.Dist(), data, h.lengths.pos, out)
  {
    hide ReadHeader, Symbols, Accepts;
    if h.lengths.pos > 8 * |data| {
      SymbolsPastEnd(h.Lit(), h.Dist(), data, h.lengths.pos, out);
    }
  }

  /** Past the end of the file only ones are read. */
  lemma OnesPastEnd(s: seq<Byte>, pos: nat, n: nat)
    requires pos >= 8 * |s|
    ensures Window(s, pos, n) == Shl(1, n) - 1
    decreases n
  {
    if n > 0 {
      OnesPastEnd(s, pos + 1, n - 1);
      OnesOfEof(pos % 8);
    }
  }

  lemma OnesOfEof(k: nat)
    requires k < 8
    ensures Shr(255, k) % 2 == 1
  {
    assert Shr(255, 1) == 127;
    assert Shr(255, 2) == 63;
    assert Shr(255, 3) == 31;
    assert Shr(255, 4) == 15;
    assert Shr(255, 5) == 7;
    assert Shr(255, 6) == 3;
    assert Shr(255, 7) == 1;
  }

  /** The body of a block of the given type. */
  method InflateBody(s: InflaterState, btype: nat) returns (ok: bool)
    requires s.Settled()
    modifies s, s.buffer
    ensures s.Settled() && s.out >= old(s.out) && (ok ==> s.Pos() > old(s.Pos()) && btype < 3)
    ensures Tracks(Body(Program, btype, s.Data(), old(s.Pos()), old(s.Output())), ok,
                   8 * s.compLen, s.Pos(), s.Output(), s.outEnd)
    ensures forall i :: s.out <= i < s.buffer.Length ==> s.buffer[i] == old(s.buffer[i])
  {
    hide Window, Body, Tracks;
    match btype
    case 0 =>
      StoredBody(s.Data(), s.Pos(), s.Output());
      ok := InflateStored(s);
    case 1 =>
      ok := InflateHuffman(s, true);
    case 2 =>
      ok := InflateHuffman(s, false);
    case _ =>
      ok := false;
      InvalidBody(s.Data(), btype, s.Pos(), s.Output(), s.Pos(), s.outEnd);
  }

  /** One block: its type bits and its body. */
  method InflateBlock(s: InflaterState) returns (ok: bool, last: bool)
    requires s.Settled()
    modifies s, s.buffer
    ensures s.Settled() && s.out >= old(s.out) && (ok ==> s.Pos() > old(s.Pos()) && old(s.Pos()) < 8 * |s.file|)
    ensures BlockTracks(s.Data(), old(s.Pos()), old(s.Output()), ok, last, s.Pos(), s.Output(), s.outEnd)
    ensures forall i :: s.out <= i < s.buffer.Length ==> s.buffer[i] == old(s.buffer[i])
  {
    hide Window, Body, Tracks, BlockTracks, Take, Shl;
    ghost var pos, out0, data := s.Pos(), s.Output(), s.Data();
    s.NeedBits(3);
    var bits := s.TakeBits(3);
    ghost var next := s.Pos();
    if pos >= 8 * |s.file| {
      TypePastEnd(s.file, pos, bits);
    }
    last := bits % 2 == 1;
    ok := InflateBody(s, bits / 2);
    BlockFromBody(data, pos, out0, bits, next, ok, s.Pos(), s.Output(), s.outEnd);
  }

  lemma TypePastEnd(file: seq<Byte>, pos: nat, bits: nat)
    requires pos >= 8 * |file| && bits == Window(file, pos, 3)
    ensures bits / 2 == 3
  {
    OnesPastEnd(file, pos, 3);
    Powers();
  }

  lemma StoredBody(data: seq<Byte>, pos: nat, out: seq<Byte>)
    ensures Body(Program, 0, data, pos, out) == Stored(data, pos, out)
  {}

  lemma InvalidBody(data: seq<Byte>, btype: nat, pos: nat, out: seq<Byte>, end: nat, room: nat)
    requires btype > 2
    ensures Tracks(Body(Program, btype, data, pos, out), false, 8 * |data|, end, out, room)
  {}

  /** What a block says of the stream from `pos` on. */
  ghost predicate BlockTracks(data: seq<Byte>, pos: nat, out: seq<Byte>,
                              ok: bool, last: bool, pos': nat, out': seq<Byte>, room: nat) {
    var r := Block(Program, data, pos, out);
    if ok then r == if pos' <= 8 * |data| then Some(BlockEnd(last, pos', out')) else None
    else r.Some? ==> |r.value.out| > room
  }

  lemma BlockFromBody(data: seq<Byte>, pos: nat, out: seq<Byte>, bits: nat, next: nat,
                      ok: bool, pos': nat, out': seq<Byte>, room: nat)
    requires Take(data, pos, 3) == if next <= 8 * |data| then Some((bits, next)) else None
    requires Tracks(Body(Program, bits / 2, data, next, out), ok, 8 * |data|, pos', out', room)
    requires ok ==> next < pos'
    ensures BlockTracks(data, pos, out, ok, bits % 2 == 1, pos', out', room)
  {
    hide Take, Body;
  }

  lemma BlocksPastEnd(data: seq<Byte>, pos: nat, out: seq<Byte>)
    requires pos >= 8 * |data|
    ensures Blocks(Program, data, pos, out) == None
  {
    hide Window;
  }

  /** What the stream is from `pos` on, in terms of what it is after the block there. */
  lemma BlocksStep(data: seq<Byte>, pos: nat, out: seq<Byte>, ok: bool, last: bool, pos': nat, out': seq<Byte>,
                   room: nat)
    requires BlockTracks(data, pos, out, ok, last, pos', out', room) && (ok ==> pos < pos')
    ensures ok && last ==> Blocks(Program, data, pos, out) == if pos' <= 8 * |data| then Some((pos', out')) else None
    ensures ok && !last ==> Blocks(Program, data, pos, out) == Blocks(Program, data, pos', out')
    ensures !ok && Blocks(Program, data, pos, out).Some? ==> |Blocks(Program, data, pos, out).value.1| > room
  {
    hide Block;
    if ok && !last && pos' > 8 * |data| {
      BlocksPastEnd(data, pos', out');
    }
  }

  /** The final test passes exactly when the bits consumed round up to the compressed bytes. */
  lemma EndOfData(s: InflaterState)
    requires s.Settled()
    ensures s.inRemaining + s.inDataSize / 8 == INFLATER_EXTRA_BYTES <==> NextByte(s.Pos()) == 8 * s.compLen
    ensures NextByte(s.Pos()) == 8 * s.compLen ==> s.Pos() <= 8 * s.compLen
    ensures s.inRemaining + s.inDataSize / 8 == INFLATER_EXTRA_BYTES ==> s.inPos < s.compLen + INFLATER_EXTRA_BYTES
  {
    hide Window;
  }

  /** Decompresses `compLen` bytes at the start of `file` into `decompLen` bytes of `buffer`. */
  method Inflate(file: seq<Byte>, compLen: nat, buffer: array<Byte>, decompLen: nat) returns (ok: bool, bytesRead: nat)
    requires compLen <= |file| && compLen + INFLATER_EXTRA_BYTES < 0x8000_0000 && decompLen <= buffer.Length
    modifies buffer
    ensures ok <==> exists out :: |out| == decompLen && Decompresses(Program, file[..compLen], out)
    ensures ok ==> Decompresses(Program, file[..compLen], buffer[..decompLen])
    ensures ok ==> bytesRead < compLen + INFLATER_EXTRA_BYTES
    ensures forall i :: decompLen <= i < buffer.Length ==> buffer[i] == old(buffer[i])
  {
    hide Window, Blocks, BlockTracks;
    var s := new InflaterState(file, compLen, buffer, decompLen);
    ghost var data := file[..compLen];
    ghost var r := Blocks(Program, data, 0, []);
    var last := false;
    ok := true;
    while ok && !last
      invariant s.Settled() && fresh(s) && s.file == file && s.compLen == compLen && s.buffer == buffer
      invariant s.outEnd == decompLen
      invariant ok && !last ==> r == Blocks(Program, data, s.Pos(), s.Output())
      invariant ok && last ==> r == if s.Pos() <= 8 * compLen then Some((s.Pos(), s.Output())) else None
      invariant !ok ==> (r.Some? ==> |r.value.1| > decompLen)
      invariant forall i :: s.out <= i < buffer.Length ==> buffer[i] == old(buffer[i])
      decreases ok && !last, 8 * |file| - s.Pos()
    {
      ghost var pos, out0 := s.Pos(), s.Output();
      ok, last := InflateBlock(s);
      BlocksStep(data, pos, out0, ok, last, s.Pos(), s.Output(), decompLen);
    }
    EndOfData(s);
    if s.inRemaining + s.inDataSize / 8 != INFLATER_EXTRA_BYTES {
      ok := false;
    } else if s.out != s.outEnd {
      ok := false;
    }
    bytesRead := s.inPos;
  }
}
