/** Building and using the lookup table: the methods of the program, proved against canonical
    decoding. */
module CodeTable {
  import opened Bits
  import opened Wrappers
  import opened Reverse
  import opened Huffman
  import opened HuffmanTable
  import opened TableSpace

  const MAX_QUICK_CXD: nat := 6
  const MAX_QUICK_LXL: nat := 9

  class HuffmanCodeTable {
    const quickBits: nat
    const maxCodeLen: nat
    const entries: array<nat>

    /** Looking up any bits gives the entry of the symbol whose code they start with. */
    ghost predicate Decodes(lens: Lengths)
      reads entries
    {
      && quickBits <= MAX_BITS && maxCodeLen <= MAX_BITS
      && forall w: nat ::
           && LookupIn(entries[..], quickBits, maxCodeLen, w).Some?
           && EntryFor(lens, w, LookupIn(entries[..], quickBits, maxCodeLen, w).value)
    }

    ghost predicate SixteenBits()
      reads entries
    {
      forall i :: 0 <= i < entries.Length ==> entries[i] < 2 * HUFFINFO_LONG_MASK
    }

    constructor (quickBits: nat, maxCodeLen: nat, size: nat)
      ensures this.quickBits == quickBits && this.maxCodeLen == maxCodeLen
      ensures fresh(entries) && entries.Length == size && forall i :: 0 <= i < size ==> entries[i] == 0
    {
      this.quickBits, this.maxCodeLen := quickBits, maxCodeLen;
      entries := new nat[size](_ => 0);
    }
  }

  /** `Undefined` is where the C program reads or writes outside its arrays. */
  datatype TableResult = Table(table: HuffmanCodeTable) | EmptyTable | Undefined

  method CountLengths(lens: Lengths) returns (bitLengthCount: array<nat>)
    ensures fresh(bitLengthCount) && bitLengthCount.Length == MAX_BITS + 1
    ensures forall b: nat :: b <= MAX_BITS ==> bitLengthCount[b] == LengthCount(lens, b)
  {
    bitLengthCount := new nat[MAX_BITS + 1](_ => 0);
    for p := 0 to |lens|
      invariant fresh(bitLengthCount) && bitLengthCount.Length == MAX_BITS + 1
      invariant forall b: nat :: b <= MAX_BITS ==> bitLengthCount[b] == Count(lens, b, p)
    {
      bitLengthCount[lens[p]] := bitLengthCount[lens[p]] + 1;
    }
  }

  /** The first code of each length, left-justified; the longest length in use; and the space used. */
  method FirstCodes(lens: Lengths, bitLengthCount: array<nat>) returns (codes: array<nat>, maxCodeLen: nat, code: nat)
    requires bitLengthCount.Length == MAX_BITS + 1
    requires forall b: nat :: b <= MAX_BITS ==> bitLengthCount[b] == LengthCount(lens, b)
    ensures fresh(codes) && codes.Length == MAX_BITS + 1
    ensures forall b: nat :: 1 <= b <= MAX_BITS ==> codes[b] == Used(lens, b - 1)
    ensures code == Used(lens, MAX_BITS)
    ensures maxCodeLen <= MAX_BITS && (maxCodeLen == 0 || LengthCount(lens, maxCodeLen) > 0)
    ensures forall b: nat :: maxCodeLen < b <= MAX_BITS ==> LengthCount(lens, b) == 0
  {
    codes := new nat[MAX_BITS + 1](_ => 0);
    code, maxCodeLen := 0, 0;
    for bits := 1 to MAX_BITS + 1
      invariant fresh(codes) && codes.Length == MAX_BITS + 1
      invariant forall b: nat :: 1 <= b < bits ==> codes[b] == Used(lens, b - 1)
      invariant code == Used(lens, bits - 1)
      invariant maxCodeLen < bits && (maxCodeLen == 0 || LengthCount(lens, maxCodeLen) > 0)
      invariant forall b: nat :: maxCodeLen < b < bits ==> LengthCount(lens, b) == 0
    {
      codes[bits] := code;
      if bitLengthCount[bits] != 0 {
        maxCodeLen := bits;
        code := code + Shl(bitLengthCount[bits], MAX_BITS - bits);
      } else {
        ShlZero(MAX_BITS - bits);
      }
    }
  }

  lemma {:induction false} CountPositive(lens: Lengths, b: nat, i: nat, n: nat)
    requires i < n <= |lens| && lens[i] == b
    ensures Count(lens, b, n) > 0
    decreases n
  {
    if i < n - 1 {
      CountPositive(lens, b, i, n - 1);
    }
  }

  lemma {:induction false} CountAll(lens: Lengths, b: nat, n: nat)
    requires n <= |lens|
    ensures Count(lens, b, n) == n <==> forall i :: 0 <= i < n ==> lens[i] == b
  {
    if n > 0 {
      CountAll(lens, b, n - 1);
    }
  }

  /** Writes `x` into every entry of `a[base..base + len]` whose index ends in the `k` bits `first`. */
  method FillStride(a: array<nat>, base: nat, len: nat, first: nat, k: nat, x: nat)
    requires base + len <= a.Length && first < Shl(1, k)
    modifies a
    ensures forall i: nat :: i < a.Length ==>
              a[i] == if base <= i < base + len && Low(i - base, k) == first then x else old(a[i])
  {
    var stride := Shl(1, k);
    ShlPowerMonotone(1, 0, k);
    LowSmall(first, k);
    Powers();
    hide Low, Shl;
    var j := first;
    while j < len
      invariant first <= j && Low(j, k) == first
      invariant forall i: nat :: i < a.Length ==>
                  a[i] == if base <= i < base + len && i - base < j && Low(i - base, k) == first then x else old(a[i])
    {
      a[base + j] := x;
      LowStep(j, k);
      forall d: nat | j <= d < j + stride && Low(d, k) == first
        ensures d == j
      {
        SameLow(j, d, k);
      }
      j := j + stride;
    }
  }

  // ---------- entering the symbols ----------

  /** The parts of the table under construction that stay the same. */
  ghost predicate Building(lens: Lengths, q: nat, top: nat, subLen: nat, size: nat) {
    && Shape(lens, q, top, subLen)
    && (q < top ==> OffsetsFit(|lens|, q))
    && (q < top ==> TakenHeads(lens, q) <= Shl(1, q))
    && (q < top ==> size == SubStart(Shl(1, q), subLen, Shl(1, q) - TakenHeads(lens, q)))
    && (q == top ==> size == Shl(1, q))
  }

  lemma FilledStart(lens: Lengths, q: nat, subLen: nat, e: seq<nat>)
    requires Shl(1, q) <= |e| && forall i :: 0 <= i < |e| ==> e[i] == 0
    ensures Filled(lens, q, subLen, 0, [], e)
  {
    hide Shl;
    forall idx: nat | idx < Shl(1, q)
      ensures MainEntry(lens, q, subLen, 0, [], idx, e[idx])
    {}
  }

  /** The left-justified code, reversed as 15 bits, is the reversed code itself. */
  lemma ReversedCode(lens: Lengths, sym: nat, code: nat)
    requires !Oversubscribed(lens) && sym < |lens| && lens[sym] >= 1
    requires code == Used(lens, lens[sym] - 1) + Shl(Count(lens, lens[sym], sym), MAX_BITS - lens[sym])
    ensures code < 0x8000 && Reverse15Bits(code) == RevCode(lens, sym)
  {
    hide Used, Count, Code, Rev, Reverse15Bits;
    CodeStart(lens, sym);
    CodeFits(lens, sym);
    JustifiedFits(Code(lens, sym), lens[sym], MAX_BITS - lens[sym]);
    hide Shl;
    Reverse15IsRev(code);
    RevPad(Code(lens, sym), MAX_BITS - lens[sym], lens[sym]);
  }

  lemma JustifiedFits(v: nat, b: nat, k: nat)
    requires v < Shl(1, b) && b + k == 15
    ensures Shl(v, k) < 0x8000
  {
    hide Shl;
    ShlMonotone(v + 1, Shl(1, b), k);
    ShlTwice(1, b, k);
    ShlAdd(v, 1, k);
    ShlPowerMonotone(1, 0, k);
    Powers();
  }

  lemma RevCodeFits(lens: Lengths, sym: nat)
    requires sym < |lens|
    ensures RevCode(lens, sym) < Shl(1, lens[sym])
  {
    hide Code, Rev, Shl;
  }

  method EnterShort(ghost lens: Lengths, ghost q: nat, ghost top: nat, ghost subLen: nat, p: nat, bits: nat, code: nat,
                    mainTableLength: nat, entries: array<nat>, ghost heads: seq<nat>)
    requires Building(lens, q, top, subLen, entries.Length) && mainTableLength == Shl(1, q)
    requires p < |lens| && bits == lens[p] && 1 <= bits <= q && code == RevCode(lens, p)
    requires Filled(lens, q, subLen, p, heads, entries[..])
    modifies entries
    ensures Filled(lens, q, subLen, p + 1, heads, entries[..])
    ensures forall i :: 0 <= i < entries.Length ==> entries[i] == old(entries[i]) || entries[i] < HUFFINFO_LONG_MASK
  {
    hide Shl, Low, RevCode, Filled, Oversubscribed, SubStart, TakenHeads;
    ghost var e := entries[..];
    var huff := 16 * p + bits;
    RevCodeFits(lens, p);
    MainFits(lens, q, subLen, p, heads, e);
    FillStride(entries, 0, mainTableLength, code, bits, huff);
    ghost var e' := entries[..];
    forall idx: nat | idx < Shl(1, q)
      ensures e'[idx] == if Low(idx, lens[p]) == RevCode(lens, p) then Huff(lens, p) else e[idx]
    {
      assert e'[idx] == entries[idx];
      assert idx - 0 == idx;
    }
    ShortStep(lens, q, subLen, p, heads, e, e');
  }

  lemma MainFits(lens: Lengths, q: nat, subLen: nat, m: nat, heads: seq<nat>, e: seq<nat>)
    requires Filled(lens, q, subLen, m, heads, e)
    ensures Shl(1, q) <= SubStart(Shl(1, q), subLen, |heads|) <= |e|
  {
    hide Shl, MainEntry, SubFilled, HeadsOf;
  }

  /** Which subtable a long code belongs in, and where the main table keeps its pointer. */
  lemma LocateHead(lens: Lengths, q: nat, top: nat, subLen: nat, m: nat, heads: seq<nat>, e: seq<nat>)
      returns (heads': seq<nat>, t: nat)
    requires Building(lens, q, top, subLen, |e|) && Filled(lens, q, subLen, m, heads, e) && Long(lens, q, m)
    ensures HeadAdded(lens, q, m, heads, heads', t)
    ensures SubStart(Shl(1, q), subLen, |heads'|) <= |e| && t < |heads'|
    ensures Pointer(Shl(1, q), subLen, t) < 2 * HUFFINFO_LONG_MASK
    ensures Low(RevCode(lens, m), q) == Rev(Head(lens, q, m), q) < Shl(1, q) <= |e|
    ensures e[Low(RevCode(lens, m), q)] == if t < |heads| then Pointer(Shl(1, q), subLen, t) else 0
    ensures t == |heads| ==> heads' == heads + [Head(lens, q, m)]
    ensures t < |heads| ==> heads' == heads
  {
    hide Shl, Low, Rev, Code, Shr, Oversubscribed, SubStart, TakenHeads, SubFilled, OffsetsFit, MainEntry;
    RevLow(Code(lens, m), lens[m] - q, q);
    var idx, head := Rev(Head(lens, q, m), q), Head(lens, q, m);
    assert MainEntry(lens, q, subLen, m, heads, idx, e[idx]);
    HeadEntry(lens, q, subLen, m, heads, e[idx]);
    if head in heads {
      t :| 0 <= t < |heads| && heads[t] == head;
      heads' := heads;
    } else {
      t, heads' := |heads|, heads + [head];
    }
    NeedsSubtable(lens, q, top, subLen, m);
    HeadsGrow(lens, q, m, heads, heads');
    RoomForHead(lens, q, m + 1, heads');
    SubStartMonotone(Shl(1, q), subLen, |heads'|, Shl(1, q) - TakenHeads(lens, q));
    LongEntryFits(lens, q, top, subLen, m + 1, heads', t);
  }

  method EnterLong(ghost lens: Lengths, q: nat, ghost top: nat, longTableLength: nat, p: nat, bits: nat, code: nat,
                   nextLongTable: nat, entries: array<nat>, ghost heads: seq<nat>)
      returns (next: nat, ghost heads': seq<nat>)
    requires Building(lens, q, top, longTableLength, entries.Length)
    requires p < |lens| && bits == lens[p] && q < bits && code == RevCode(lens, p)
    requires Filled(lens, q, longTableLength, p, heads, entries[..])
    requires nextLongTable == SubStart(Shl(1, q), longTableLength, |heads|)
    modifies entries
    ensures Filled(lens, q, longTableLength, p + 1, heads', entries[..])
    ensures next == SubStart(Shl(1, q), longTableLength, |heads'|)
    ensures forall i :: 0 <= i < entries.Length ==>
              entries[i] == old(entries[i]) || entries[i] < 2 * HUFFINFO_LONG_MASK
  {
    hide Shl, Low, Shr, Rev, RevCode, Code, Filled, Oversubscribed, SubStart, TakenHeads, OffsetsFit;
    ghost var e := entries[..];
    ghost var t;
    heads', t := LocateHead(lens, q, top, longTableLength, p, heads, e);
    var huff := 16 * p + bits;
    var prefixCode, suffixCode := Low(code, q), Shr(code, q);
    var thisLongTable: nat;
    if entries[prefixCode] == 0 {
      entries[prefixCode] := HUFFINFO_LONG_MASK + (HEADER_BYTES + ENTRY_BYTES * nextLongTable);
      thisLongTable := nextLongTable;
      next := nextLongTable + longTableLength;
      SubStartLess(Shl(1, q), longTableLength, t);
    } else {
      var delta := entries[prefixCode] - HUFFINFO_LONG_MASK;
      thisLongTable := (delta - HEADER_BYTES) / ENTRY_BYTES;
      next := nextLongTable;
    }
    assert thisLongTable == SubStart(Shl(1, q), longTableLength, t);
    SubStartMonotone(Shl(1, q), longTableLength, t, |heads'|);
    SuffixFits(lens, q, p);
    ghost var e1 := entries[..];
    FillStride(entries, thisLongTable, longTableLength, suffixCode, bits - q, huff);
    LongEntered(lens, q, longTableLength, p, t, e, e1, entries[..]);
    LongStep(lens, q, top, longTableLength, p, heads, heads', t, e, entries[..]);
  }

  lemma SuffixFits(lens: Lengths, q: nat, sym: nat)
    requires Long(lens, q, sym)
    ensures Shr(RevCode(lens, sym), q) < Shl(1, lens[sym] - q)
  {
    hide Shl, Shr, Code, Rev;
    ShlTwice(1, lens[sym] - q, q);
    ShrUpper(RevCode(lens, sym), Shl(1, lens[sym] - q), q);
  }

  lemma LongEntered(lens: Lengths, q: nat, subLen: nat, m: nat, t: nat, e: seq<nat>, e1: seq<nat>, e2: seq<nat>)
    requires Long(lens, q, m) && Shl(1, q) <= |e| == |e1| == |e2|
    requires Rev(Head(lens, q, m), q) < Shl(1, q)
    requires e1 == e[Rev(Head(lens, q, m), q) := Pointer(Shl(1, q), subLen, t)]
    requires forall i: nat :: i < |e| ==>
               e2[i] == if SubStart(Shl(1, q), subLen, t) <= i < SubStart(Shl(1, q), subLen, t) + subLen
                          && Low(i - SubStart(Shl(1, q), subLen, t), lens[m] - q) == Shr(RevCode(lens, m), q)
                        then 16 * m + lens[m] else e1[i]
    ensures LongWritten(lens, q, subLen, m, t, e, e2)
  {
    hide Shl, Low, Shr, Rev, RevCode, Code, SubStart;
    SubStartMonotone(Shl(1, q), subLen, 0, t);
    SubStartZero(Shl(1, q), subLen);
  }

  lemma SubStartZero(main: nat, len: nat)
    ensures SubStart(main, len, 0) == main
  {}

  // ---------- the whole table ----------

  /** The bits of the main table: fewer than asked for if no code needs them. */
  function QuickBits(maxCodeLen: nat, maxQuickBits: nat): nat {
    if maxCodeLen <= maxQuickBits then maxCodeLen else maxQuickBits
  }

  /** The sizes that the program computes are those the subtables need. */
  lemma SizesFit(lens: Lengths, maxQuickBits: nat, maxCodeLen: nat)
    requires |lens| < 2048 && 1 <= maxQuickBits && OffsetsFit(|lens|, maxQuickBits) && !Oversubscribed(lens)
    requires 1 <= maxCodeLen <= MAX_BITS && forall i :: 0 <= i < |lens| ==> lens[i] <= maxCodeLen
    ensures maxCodeLen <= maxQuickBits ==> Building(lens, maxCodeLen, maxCodeLen, 0, Shl(1, maxCodeLen))
    ensures maxQuickBits < maxCodeLen ==>
              && Used(lens, maxQuickBits) <= Shl(1, MAX_BITS)
              && var num := Shr(Shl(1, MAX_BITS) - Used(lens, maxQuickBits), MAX_BITS - maxQuickBits);
                 var len := Shl(1, maxCodeLen - maxQuickBits);
                 Building(lens, maxQuickBits, maxCodeLen, len, SubStart(Shl(1, maxQuickBits), len, num))
  {
    hide Shl, Shr, Used, SubStart, Oversubscribed, TakenHeads;
    if maxQuickBits < maxCodeLen {
      SubtableCount(lens, maxQuickBits);
    }
  }

  /** Builds the table for one alphabet. */
  method MakeCodeTable(lens: Lengths, maxQuickBits: nat) returns (r: TableResult)
    requires |lens| < 2048 && 1 <= maxQuickBits && OffsetsFit(|lens|, maxQuickBits)
    ensures r.EmptyTable? <==> AllZero(lens)
    ensures r.Undefined? <==> Oversubscribed(lens)
    ensures r.Table? ==> fresh(r.table.entries) && r.table.Decodes(lens) && r.table.SixteenBits()
  {
    hide Shl, Shr, Used, Low, Rev, Reverse15Bits, Filled, SubStart, OffsetsFit, LookupIn, EntryFor;
    var bitLengthCount := CountLengths(lens);
    CountAll(lens, 0, |lens|);
    if bitLengthCount[0] == |lens| {
      EmptyNotOversubscribed(lens);
      return EmptyTable;
    }
    var codes, maxCodeLen, code := FirstCodes(lens, bitLengthCount);
    if code > Shl(1, MAX_BITS) {
      return Undefined;
    }
    LongestCode(lens, maxCodeLen);
    SizesFit(lens, maxQuickBits, maxCodeLen);
    var quickBits := QuickBits(maxCodeLen, maxQuickBits);
    var mainTableLength, numLongTables, longTableLength := Shl(1, quickBits), 0, 0;
    if maxQuickBits < maxCodeLen {
      numLongTables := Shr(Shl(1, MAX_BITS) - codes[maxQuickBits + 1], MAX_BITS - maxQuickBits);
      longTableLength := Shl(1, maxCodeLen - maxQuickBits);
    }
    SubStartSum(mainTableLength, longTableLength, numLongTables);
    var table := new HuffmanCodeTable(quickBits, maxCodeLen, mainTableLength + numLongTables * longTableLength);
    FillTable(lens, codes, table, mainTableLength, longTableLength);
    return Table(table);
  }

  lemma EmptyNotOversubscribed(lens: Lengths)
    requires AllZero(lens)
    ensures !Oversubscribed(lens)
  {
    hide Shl;
    NoneUsed(lens, MAX_BITS);
  }

  lemma {:induction false} NoneUsed(lens: Lengths, b: nat)
    requires AllZero(lens) && b <= MAX_BITS
    ensures Used(lens, b) == 0
  {
    hide Shl;
    if b > 0 {
      NoneUsed(lens, b - 1);
      NoneOfLength(lens, b, |lens|);
      ShlZero(MAX_BITS - b);
    }
  }

  lemma {:induction false} NoneOfLength(lens: Lengths, b: nat, n: nat)
    requires AllZero(lens) && b > 0 && n <= |lens|
    ensures Count(lens, b, n) == 0
  {
    if n > 0 {
      NoneOfLength(lens, b, n - 1);
    }
  }

  lemma LongestCode(lens: Lengths, maxCodeLen: nat)
    requires !AllZero(lens) && maxCodeLen <= MAX_BITS
    requires forall b: nat :: maxCodeLen < b <= MAX_BITS ==> LengthCount(lens, b) == 0
    ensures 1 <= maxCodeLen && forall i :: 0 <= i < |lens| ==> lens[i] <= maxCodeLen
  {
    forall i | 0 <= i < |lens|
      ensures lens[i] <= maxCodeLen
    {
      CountPositive(lens, lens[i], i, |lens|);
      assert LengthCount(lens, lens[i]) > 0;
    }
    var i :| 0 <= i < |lens| && lens[i] != 0;
  }

  /** Enters all symbols into an empty table. */
  method FillTable(lens: Lengths, codes: array<nat>, table: HuffmanCodeTable, mainTableLength: nat,
                   longTableLength: nat)
    requires Building(lens, table.quickBits, table.maxCodeLen, longTableLength, table.entries.Length)
    requires mainTableLength == Shl(1, table.quickBits) <= table.entries.Length
    requires codes.Length == MAX_BITS + 1 && codes != table.entries
    requires forall b: nat :: 1 <= b <= MAX_BITS ==> codes[b] == Used(lens, b - 1)
    requires forall i :: 0 <= i < table.entries.Length ==> table.entries[i] == 0
    modifies codes, table.entries
    ensures table.Decodes(lens) && table.SixteenBits()
  {
    hide Shl, Shr, Used, Low, Rev, Reverse15Bits, Filled, SubStart, OffsetsFit, Shape, LookupIn, EntryFor, RevCode;
    var entries, quickBits := table.entries, table.quickBits;
    var nextLongTable := mainTableLength;
    ghost var heads: seq<nat> := [];
    FilledStart(lens, quickBits, longTableLength, entries[..]);
    SubStartZero(Shl(1, quickBits), longTableLength);
    forall b: nat | 1 <= b <= MAX_BITS
      ensures Shl(Count(lens, b, 0), MAX_BITS - b) == 0
    {
      ShlZero(MAX_BITS - b);
    }
    for p := 0 to |lens|
      invariant Filled(lens, quickBits, longTableLength, p, heads, entries[..])
      invariant nextLongTable == SubStart(Shl(1, quickBits), longTableLength, |heads|)
      invariant forall b: nat :: 1 <= b <= MAX_BITS ==>
                  codes[b] == Used(lens, b - 1) + Shl(Count(lens, b, p), MAX_BITS - b)
      invariant table.SixteenBits()
    {
      var bits := lens[p];
      if bits == 0 {
        ZeroStep(lens, quickBits, longTableLength, p, heads, entries[..]);
        continue;
      }
      var code := codes[bits];
      codes[bits] := codes[bits] + Shl(1, MAX_BITS - bits);
      ShlAdd(Count(lens, bits, p), 1, MAX_BITS - bits);
      ShapeNotOversubscribed(lens, quickBits, table.maxCodeLen, longTableLength);
      ReversedCode(lens, p, code);
      code := Reverse15Bits(code);
      if bits <= quickBits {
        EnterShort(lens, quickBits, table.maxCodeLen, longTableLength, p, bits, code, mainTableLength, entries, heads);
      } else {
        nextLongTable, heads := EnterLong(lens, quickBits, table.maxCodeLen, longTableLength, p, bits, code,
                                          nextLongTable, entries, heads);
      }
    }
    TableDecodes(lens, table, longTableLength, heads);
  }

  lemma ShapeNotOversubscribed(lens: Lengths, q: nat, top: nat, subLen: nat)
    requires Shape(lens, q, top, subLen)
    ensures !Oversubscribed(lens)
  {
    hide Oversubscribed;
  }

  lemma TableDecodes(lens: Lengths, table: HuffmanCodeTable, subLen: nat, heads: seq<nat>)
    requires Shape(lens, table.quickBits, table.maxCodeLen, subLen)
    requires Filled(lens, table.quickBits, subLen, |lens|, heads, table.entries[..])
    ensures table.Decodes(lens)
  {
    hide Filled, LookupIn, EntryFor, Oversubscribed;
    forall w: nat
      ensures LookupIn(table.entries[..], table.quickBits, table.maxCodeLen, w).Some?
      ensures EntryFor(lens, w, LookupIn(table.entries[..], table.quickBits, table.maxCodeLen, w).value)
    {
      LookupFinds(lens, table.quickBits, table.maxCodeLen, subLen, heads, table.entries[..], w);
    }
  }
}
