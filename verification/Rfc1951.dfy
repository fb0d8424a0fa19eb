/** What a compressed stream means: RFC 1951, read bit by bit with no lookahead and no tables.
    `Program` differs from the standard in the dynamic headers it accepts; see `Accepts`. */
module Rfc1951 {
  import opened Bits
  import opened Wrappers
  import opened Huffman

  const LENGTH_BASE: seq<nat> :=
    [3, 4, 5, 6, 7, 8, 9, 10, 11, 13, 15, 17, 19, 23, 27, 31, 35, 43, 51, 59, 67, 83, 99, 115,
     131, 163, 195, 227, 258]
  const LENGTH_EXTRA: seq<nat> :=
    [0, 0, 0, 0, 0, 0, 0, 0, 1, 1, 1, 1, 2, 2, 2, 2, 3, 3, 3, 3, 4, 4, 4, 4, 5, 5, 5, 5, 0]
  const DIST_BASE: seq<nat> :=
    [1, 2, 3, 4, 5, 7, 9, 13, 17, 25, 33, 49, 65, 97, 129, 193, 257, 385, 513, 769, 1025, 1537,
     2049, 3073, 4097, 6145, 8193, 12289, 16385, 24577]
  const DIST_EXTRA: seq<nat> :=
    [0, 0, 0, 0, 1, 1, 2, 2, 3, 3, 4, 4, 5, 5, 6, 6, 7, 7, 8, 8, 9, 9, 10, 10, 11, 11, 12, 12, 13, 13]
  const CODE_LENGTH_ORDER: seq<nat> := [16, 17, 18, 0, 8, 7, 9, 6, 10, 5, 11, 4, 12, 3, 13, 2, 14, 1, 15]

  const END_OF_BLOCK: nat := 256
  const MAX_LENGTH_CODE: nat := 285
  const MAX_DISTANCE_CODE: nat := 29

  /** The next `n` bits as a number, and the position after them. */
  function Take(data: seq<Byte>, pos: nat, n: nat): (r: Option<(nat, nat)>)
    ensures r.Some? ==> r.value.1 == pos + n <= 8 * |data| && r.value.0 < Shl(1, n)
  {
    if pos + n <= 8 * |data| then Some((Window(data, pos, n), pos + n)) else None
  }

  /** Repeats `length` bytes from `distance` back; the source may overlap the bytes written. */
  function CopyMatch(out: seq<Byte>, distance: nat, length: nat): (r: seq<Byte>)
    requires 1 <= distance <= |out|
    ensures out <= r && |r| == |out| + length
    decreases length
  {
    if length == 0 then out else CopyMatch(out + [out[|out| - distance]], distance, length - 1)
  }

  // ---------- compressed symbols: sections 3.2.3 and 3.2.5 ----------

  function ReadLength(data: seq<Byte>, pos: nat, sym: nat): (r: Option<(nat, nat)>)
    requires END_OF_BLOCK < sym <= MAX_LENGTH_CODE
    ensures r.Some? ==> pos <= r.value.1 <= 8 * |data|
  {
    var n := sym - END_OF_BLOCK - 1;
    match Take(data, pos, LENGTH_EXTRA[n])
    case None => None
    case Some((extra, next)) => Some((LENGTH_BASE[n] + extra, next))
  }

  ghost function ReadDistance(dist: Lengths, data: seq<Byte>, pos: nat): (r: Option<(nat, nat)>)
    ensures r.Some? ==> 1 <= r.value.0 && pos <= r.value.1 <= 8 * |data|
  {
    match Decode(dist, data, pos)
    case None => None
    case Some((sym, next)) =>
      if sym > MAX_DISTANCE_CODE then None else
      match Take(data, next, DIST_EXTRA[sym])
      case None => None
      case Some((extra, after)) => Some((DIST_BASE[sym] + extra, after))
  }

  /** Decodes symbols up to the end of the block. */
  ghost function Symbols(lit: Lengths, dist: Lengths, data: seq<Byte>, pos: nat, out: seq<Byte>)
      : (r: Option<(nat, seq<Byte>)>)
    ensures r.Some? ==> pos < r.value.0 <= 8 * |data| && out <= r.value.1
    decreases 8 * |data| - pos
  {
    match Decode(lit, data, pos)
    case None => None
    case Some((sym, next)) =>
      if sym < END_OF_BLOCK then Symbols(lit, dist, data, next, out + [sym])
      else if sym == END_OF_BLOCK then Some((next, out))
      else if sym > MAX_LENGTH_CODE then None
      else
        match ReadLength(data, next, sym)
        case None => None
        case Some((length, mid)) =>
          match ReadDistance(dist, data, mid)
          case None => None
          case Some((distance, after)) =>
            if distance > |out| then None
            else Symbols(lit, dist, data, after, CopyMatch(out, distance, length))
  }

  // ---------- stored blocks: section 3.2.4 ----------

  function NextByte(pos: nat): nat {
    8 * ((pos + 7) / 8)
  }

  const LEN_BITS: nat := 16
  const LEN_SUM: nat := 0xFFFF

  /** The length of a stored block and the byte position of its data: LEN and its complement NLEN. */
  function StoredLength(data: seq<Byte>, pos: nat): (r: Option<(nat, nat)>)
    ensures r.Some? ==> pos < 8 * r.value.1 <= 8 * |data|
  {
    var start := NextByte(pos);
    match Take(data, start, LEN_BITS)
    case None => None
    case Some((len, next)) =>
      match Take(data, next, LEN_BITS)
      case None => None
      case Some((nlen, after)) => if len + nlen == LEN_SUM then Some((len, start / 8 + 4)) else None
  }

  function Stored(data: seq<Byte>, pos: nat, out: seq<Byte>): (r: Option<(nat, seq<Byte>)>)
    ensures r.Some? ==> pos < r.value.0 <= 8 * |data| && out <= r.value.1
  {
    var h := StoredLength(data, pos);
    if h.None? then None else TakeBytes(data, h.value.1, h.value.0, out)
  }

  function TakeBytes(data: seq<Byte>, start: nat, len: nat, out: seq<Byte>): (r: Option<(nat, seq<Byte>)>)
    ensures r.Some? ==> 8 * start <= r.value.0 <= 8 * |data| && out <= r.value.1
  {
    if start + len > |data| then None else Some((8 * (start + len), out + data[start..start + len]))
  }

  // ---------- fixed codes: section 3.2.6 ----------

  function FixedLength(sym: nat): (len: nat)
    ensures 7 <= len <= 9
  {
    if sym < 144 then 8 else if sym < 256 then 9 else if sym < 280 then 7 else 8
  }

  function FixedLit(): Lengths {
    seq(288, (sym: nat) => FixedLength(sym))
  }

  function FixedDist(): Lengths {
    seq(32, (sym: nat) => 5)
  }

  // ---------- dynamic codes: section 3.2.7 ----------

  /** The three-bit lengths of the first `n` code-length codes in their order, from the `i`-th on. */
  function CodeLengthLengths(data: seq<Byte>, pos: nat, n: nat, i: nat, lens: seq<nat>): (r: Option<(seq<nat>, nat)>)
    requires i <= n <= 19 == |lens| && forall k :: 0 <= k < 19 ==> lens[k] <= 7
    ensures r.Some? ==> |r.value.0| == 19 && (forall k :: 0 <= k < 19 ==> r.value.0[k] <= 7)
    ensures r.Some? ==> pos <= r.value.1 <= 8 * |data| || n == i
    ensures r.Some? ==> r.value.1 == pos + 3 * (n - i)
    decreases n - i
  {
    Powers();
    if i == n then Some((lens, pos)) else
    match Take(data, pos, 3)
    case None => None
    case Some((len, next)) =>
      assert CODE_LENGTH_ORDER[i] < 19;
      CodeLengthLengths(data, next, n, i + 1, lens[CODE_LENGTH_ORDER[i] := len])
  }

  /** Code lengths read so far, the position after them, and how many of them were written out:
      runs of zeros are skipped over, not written. */
  datatype LengthList = LengthList(lens: seq<nat>, pos: nat, written: nat)

  /** One code length, or one run of them. */
  ghost function NextLengths(cl: Lengths, data: seq<Byte>, l: LengthList): (r: Option<LengthList>)
    requires forall k :: 0 <= k < |l.lens| ==> l.lens[k] <= MAX_BITS
    ensures r.Some? ==> l.pos < r.value.pos <= 8 * |data| && |l.lens| < |r.value.lens|
    ensures r.Some? && l.written <= |l.lens| ==> l.written <= r.value.written <= |r.value.lens|
    ensures r.Some? ==> forall k :: 0 <= k < |r.value.lens| ==> r.value.lens[k] <= MAX_BITS
  {
    match Decode(cl, data, l.pos)
    case None => None
    case Some((sym, next)) =>
      if sym <= 15 then
        Some(LengthList(l.lens + [sym], next, |l.lens| + 1))
      else if sym == 16 then
        match Take(data, next, 2)
        case None => None
        case Some((extra, after)) =>
          if l.lens == [] then None
          else Some(LengthList(l.lens + Repeat(l.lens[|l.lens| - 1], 3 + extra), after, |l.lens| + 3 + extra))
      else if sym == 17 then
        match Take(data, next, 3)
        case None => None
        case Some((extra, after)) => Some(LengthList(l.lens + Repeat(0, 3 + extra), after, l.written))
      else if sym == 18 then
        match Take(data, next, 7)
        case None => None
        case Some((extra, after)) => Some(LengthList(l.lens + Repeat(0, 11 + extra), after, l.written))
      else None
  }

  function Repeat(x: nat, n: nat): (r: seq<nat>)
    ensures |r| == n && forall k :: 0 <= k < n ==> r[k] == x
  {
    seq(n, _ => x)
  }

  /** Reads code lengths until there are `total` of them; the last run may overrun. */
  ghost function ReadLengths(cl: Lengths, data: seq<Byte>, total: nat, l: LengthList): (r: Option<LengthList>)
    requires forall k :: 0 <= k < |l.lens| ==> l.lens[k] <= MAX_BITS
    ensures r.Some? ==> total <= |r.value.lens| && (l.pos < r.value.pos <= 8 * |data| || r.value == l)
    ensures r.Some? && l.written <= |l.lens| ==> l.written <= r.value.written <= |r.value.lens|
    ensures r.Some? ==> forall k :: 0 <= k < |r.value.lens| ==> r.value.lens[k] <= MAX_BITS
    decreases 8 * |data| - l.pos
  {
    if total <= |l.lens| then Some(l) else
    match NextLengths(cl, data, l)
    case None => None
    case Some(next) => ReadLengths(cl, data, total, next)
  }

  datatype Header = Header(hlit: nat, hdist: nat, lengths: LengthList) {
    predicate Valid() {
      && hlit + hdist <= |lengths.lens|
      && forall k :: 0 <= k < |lengths.lens| ==> lengths.lens[k] <= MAX_BITS
    }

    function Lit(): Lengths
      requires Valid()
    {
      lengths.lens[..hlit]
    }

    function Dist(): Lengths
      requires Valid()
    {
      lengths.lens[hlit..hlit + hdist]
    }
  }

  /** The numbers of literal/length, distance and code-length codes. */
  function ReadCounts(data: seq<Byte>, pos: nat): (r: Option<(nat, nat, nat, nat)>)
    ensures r.Some? ==> r.value.0 <= 288 && r.value.1 <= 32 && r.value.2 <= 19 && pos < r.value.3 <= 8 * |data|
  {
    Powers();
    match Take(data, pos, 5)
    case None => None
    case Some((hlit, p1)) =>
      match Take(data, p1, 5)
      case None => None
      case Some((hdist, p2)) =>
        match Take(data, p2, 4)
        case None => None
        case Some((hclen, p3)) => Some((257 + hlit, 1 + hdist, 4 + hclen, p3))
  }

  ghost function ReadHeader(data: seq<Byte>, pos: nat): (r: Option<Header>)
    ensures r.Some? ==> r.value.Valid() && pos < r.value.lengths.pos <= 8 * |data|
    ensures r.Some? ==> r.value.hdist <= 32 && r.value.lengths.written <= |r.value.lengths.lens|
  {
    match ReadCounts(data, pos)
    case None => None
    case Some((hlit, hdist, hclen, next)) =>
      match CodeLengthLengths(data, next, hclen, 0, Repeat(0, 19))
      case None => None
      case Some((cl, after)) =>
        if Oversubscribed(cl) then None else
        match ReadLengths(cl, data, hlit + hdist, LengthList([], after, 0))
        case None => None
        case Some(l) => Some(Header(hlit, hdist, l))
  }

  // ---------- whole streams: section 3.2.3 ----------

  datatype Rules = Standard | Program

  /** The dynamic headers that a set of rules accepts.  The standard allows at most 286
      literal/length codes and no run past the last code length.  The program checks neither, as
      long as it stays inside its array of 318, but wants a code in each set, even where none is used. */
  predicate Accepts(rules: Rules, h: Header)
    requires h.Valid()
  {
    && !Oversubscribed(h.Lit()) && !Oversubscribed(h.Dist())
    && match rules
       case Standard => h.hlit <= 286 && |h.lengths.lens| == h.hlit + h.hdist
       case Program =>
         && h.hlit + h.hdist <= 318 && h.lengths.written <= 318
         && !AllZero(h.Lit()) && !AllZero(h.Dist())
  }

  datatype BlockEnd = BlockEnd(last: bool, pos: nat, out: seq<Byte>)

  ghost function Block(rules: Rules, data: seq<Byte>, pos: nat, out: seq<Byte>): (r: Option<BlockEnd>)
    ensures r.Some? ==> pos < r.value.pos <= 8 * |data| && out <= r.value.out
  {
    match Take(data, pos, 3)
    case None => None
    case Some((bits, next)) =>
      var body := Body(rules, bits / 2, data, next, out);
      match body
      case None => None
      case Some((end, out')) => Some(BlockEnd(bits % 2 == 1, end, out'))
  }

  ghost function Body(rules: Rules, btype: nat, data: seq<Byte>, pos: nat,
                      out: seq<Byte>): (r: Option<(nat, seq<Byte>)>)
    ensures r.Some? ==> pos < r.value.0 <= 8 * |data| && out <= r.value.1
  {
    if btype == 0 then Stored(data, pos, out)
    else if btype == 1 then Symbols(FixedLit(), FixedDist(), data, pos, out)
    else if btype == 2 then DynamicBody(rules, data, pos, out)
    else None
  }

  ghost function DynamicBody(rules: Rules, data: seq<Byte>, pos: nat, out: seq<Byte>): (r: Option<(nat, seq<Byte>)>)
    ensures r.Some? ==> pos < r.value.0 <= 8 * |data| && out <= r.value.1
  {
    match ReadHeader(data, pos)
    case None => None
    case Some(h) => if Accepts(rules, h) then Symbols(h.Lit(), h.Dist(), data, h.lengths.pos, out) else None
  }

  /** Decodes blocks up to the last one: the position after it and all output. */
  ghost function Blocks(rules: Rules, data: seq<Byte>, pos: nat, out: seq<Byte>): (r: Option<(nat, seq<Byte>)>)
    ensures r.Some? ==> pos < r.value.0 <= 8 * |data| && out <= r.value.1
    decreases 8 * |data| - pos
  {
    match Block(rules, data, pos, out)
    case None => None
    case Some(b) => if b.last then Some((b.pos, b.out)) else Blocks(rules, data, b.pos, b.out)
  }

  /** A stream decodes to `out` when its last block ends in its last byte. */
  ghost predicate Decompresses(rules: Rules, data: seq<Byte>, out: seq<Byte>) {
    var r := Blocks(rules, data, 0, []);
    r.Some? && NextByte(r.value.0) == 8 * |data| && r.value.1 == out
  }
}
