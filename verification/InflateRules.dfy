/** Where the program and the standard part ways, exactly: two properties of the dynamic headers
    that a stream contains decide whether both accept it. */
module InflateRules {
  import opened Bits
  import opened Wrappers
  import opened Huffman
  import opened HuffmanTable
  import opened Rfc1951
  import opened Inflate
  import opened Reverse

  datatype Limit = NamesDistances | WithinStandard

  /** `NamesDistances`: some distance has a code.  `WithinStandard`: at most 286 literal/length
      codes, and no run past the last code length. */
  predicate Meets(limit: Limit, h: Header)
    requires h.Valid()
  {
    match limit
    case NamesDistances => !AllZero(h.Dist())
    case WithinStandard => h.hlit <= 286 && |h.lengths.lens| == h.hlit + h.hdist
  }

  /** Whether the block at `pos`, if it has a dynamic header, has one that meets the limit. */
  ghost predicate HeaderMeets(limit: Limit, data: seq<Byte>, pos: nat) {
    var t := Take(data, pos, 3);
    t.Some? && t.value.0 / 2 == 2 ==>
      var h := ReadHeader(data, t.value.1);
      h.Some? ==> Meets(limit, h.value)
  }

  /** Whether every dynamic header met in decoding from `pos` on meets the limit. */
  ghost predicate EveryHeader(rules: Rules, limit: Limit, data: seq<Byte>, pos: nat, out: seq<Byte>)
    decreases 8 * |data| - pos
  {
    HeaderMeets(limit, data, pos)
    && match Block(rules, data, pos, out)
       case None => true
       case Some(b) => b.last || EveryHeader(rules, limit, data, b.pos, b.out)
  }

  /** The rules that differ from `rules` by the given limit. */
  predicate Differ(rules: Rules, other: Rules, limit: Limit) {
    (rules == Standard && other == Program && limit == NamesDistances)
    || (rules == Program && other == Standard && limit == WithinStandard)
  }

  /** A header accepted by one set of rules is accepted by the other just if it meets the limit. */
  lemma AcceptsOther(rules: Rules, other: Rules, limit: Limit, h: Header)
    requires Differ(rules, other, limit) && h.Valid() && Accepts(rules, h) && !AllZero(h.Lit())
    requires h.hdist <= 32 && h.lengths.written <= |h.lengths.lens|
    ensures Accepts(other, h) <==> Meets(limit, h)
  {
    hide Oversubscribed;
  }

  lemma EmptyLitHasNoSymbols(lit: Lengths, dist: Lengths, data: seq<Byte>, pos: nat, out: seq<Byte>)
    requires AllZero(lit)
    ensures Symbols(lit, dist, data, pos, out) == None
  {
    hide Decode;
    EmptyDecodesNothing(lit, data, pos);
  }

  lemma OneDynamicBody(rules: Rules, other: Rules, limit: Limit, data: seq<Byte>, pos: nat, out: seq<Byte>)
    requires Differ(rules, other, limit) && DynamicBody(rules, data, pos, out).Some?
    ensures ReadHeader(data, pos).Some?
    ensures DynamicBody(other, data, pos, out)
         == if Meets(limit, ReadHeader(data, pos).value) then DynamicBody(rules, data, pos, out) else None
  {
    hide ReadHeader, Symbols, Accepts, Meets;
    var h := ReadHeader(data, pos).value;
    if AllZero(h.Lit()) {
      EmptyLitHasNoSymbols(h.Lit(), h.Dist(), data, h.lengths.pos, out);
    }
    AcceptsOther(rules, other, limit, h);
  }

  lemma OneBlock(rules: Rules, other: Rules, limit: Limit, data: seq<Byte>, pos: nat, out: seq<Byte>)
    requires Differ(rules, other, limit) && Block(rules, data, pos, out).Some?
    ensures Block(other, data, pos, out) == if HeaderMeets(limit, data, pos) then Block(rules, data, pos, out) else None
  {
    hide DynamicBody, Symbols, Stored, ReadHeader, Take, FixedLit, FixedDist, Meets;
    var (bits, next) := Take(data, pos, 3).value;
    if bits / 2 == 2 {
      OneDynamicBody(rules, other, limit, data, next, out);
    }
  }

  /** Of a stream that one set of rules decodes, the other makes the same or nothing at all. */
  lemma {:induction false} OtherRules(rules: Rules, other: Rules, limit: Limit, data: seq<Byte>, pos: nat,
                                      out: seq<Byte>)
    requires Differ(rules, other, limit) && Blocks(rules, data, pos, out).Some?
    ensures Blocks(other, data, pos, out)
         == if EveryHeader(rules, limit, data, pos, out) then Blocks(rules, data, pos, out) else None
    decreases 8 * |data| - pos
  {
    hide Block, HeaderMeets;
    OneBlock(rules, other, limit, data, pos, out);
    var b := Block(rules, data, pos, out).value;
    if !b.last {
      OtherRules(rules, other, limit, data, b.pos, b.out);
    }
  }

  /** The program decodes a standard stream just if each of its dynamic headers names a distance. */
  lemma StandardStreams(data: seq<Byte>, out: seq<Byte>)
    requires Decompresses(Standard, data, out)
    ensures Decompresses(Program, data, out) <==> EveryHeader(Standard, NamesDistances, data, 0, [])
  {
    hide Blocks, EveryHeader;
    OtherRules(Standard, Program, NamesDistances, data, 0, []);
  }

  /** What the program decodes is a standard stream just if its headers keep to the standard. */
  lemma ProgramStreams(data: seq<Byte>, out: seq<Byte>)
    requires Decompresses(Program, data, out)
    ensures Decompresses(Standard, data, out) <==> EveryHeader(Program, WithinStandard, data, 0, [])
  {
    hide Blocks, EveryHeader;
    OtherRules(Program, Standard, WithinStandard, data, 0, []);
  }

  // ---------- overlapping copies ----------

  /** A copy repeats the last `distance` bytes periodically, however long it is. */
  lemma {:induction false} CopyIsPeriodic(out: seq<Byte>, distance: nat, length: nat, i: nat)
    requires 1 <= distance <= |out| && i < length
    ensures CopyMatch(out, distance, length)[|out| + i] == out[|out| - distance + i % distance]
    decreases length
  {
    var next := out + [out[|out| - distance]];
    if i == 0 {
      assert CopyMatch(next, distance, length - 1)[|out|] == next[|out|];
    } else {
      CopyIsPeriodic(next, distance, length - 1, i - 1);
      Rotate(i, distance);
    }
  }

  lemma Rotate(i: nat, d: nat)
    requires i >= 1 && d >= 1
    ensures (i - 1) % d + 1 < d ==> i % d == (i - 1) % d + 1
    ensures (i - 1) % d + 1 == d ==> i % d == 0
  {
    var q, r := (i - 1) / d, (i - 1) % d;
    assert i - 1 == d * q + r;
    if r + 1 == d {
      DivModUnique(i, d, q + 1, 0);
    } else {
      DivModUnique(i, d, q, r + 1);
    }
  }
}
