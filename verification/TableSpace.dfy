/** How much space the subtables need: they stay inside the allocation, and every subtable's byte
    offset fits in the 15 bits of a pointer entry. */
module TableSpace {
  import opened Bits
  import opened Wrappers
  import opened Huffman
  import opened HuffmanTable

  /** Distinct numbers from an interval are no more than the interval has. */
  lemma {:induction false} DistinctBelow(s: seq<nat>, lo: nat, hi: nat)
    requires lo <= hi && forall i :: 0 <= i < |s| ==> lo <= s[i] < hi
    requires forall i, j :: 0 <= i < j < |s| ==> s[i] != s[j]
    ensures |s| <= hi - lo
    decreases hi
  {
    if s != [] {
      assert lo <= s[0] < hi;
      if hi - 1 in s {
        var k :| 0 <= k < |s| && s[k] == hi - 1;
        DistinctBelow(s[..k] + s[k + 1..], lo, hi - 1);
      } else {
        DistinctBelow(s, lo, hi - 1);
      }
    }
  }

  /** The number of `q`-bit prefixes that the codes of up to `q` bits take up. */
  function TakenHeads(lens: Lengths, q: nat): nat {
    NextCode(lens, q) + LengthCount(lens, q)
  }

  lemma TakenIsUsed(lens: Lengths, q: nat)
    requires 1 <= q <= MAX_BITS
    ensures Shl(TakenHeads(lens, q), MAX_BITS - q) == Used(lens, q)
  {
    hide NextCode, LengthCount, Shl;
    NextCodeIsUsed(lens, q);
    ShlAdd(NextCode(lens, q), LengthCount(lens, q), MAX_BITS - q);
  }

  /** The heads of long codes come after the prefixes that shorter codes take up. */
  lemma HeadNotTaken(lens: Lengths, q: nat, sym: nat)
    requires 1 <= q && Long(lens, q, sym)
    ensures TakenHeads(lens, q) <= Head(lens, q, sym)
  {
    hide NextCode, LengthCount, Shl, Shr, Count;
    NextCodeGrows(lens, q, lens[sym]);
    ShrMonotone(Shl(TakenHeads(lens, q), lens[sym] - q), Code(lens, sym), lens[sym] - q);
    ShrOfShl(TakenHeads(lens, q), lens[sym] - q);
  }

  lemma ShrOfShl(v: nat, k: nat)
    ensures Shr(Shl(v, k), k) == v
  {
    HighLowUnique(v, 0, k);
  }

  /** The size computed for the subtables counts exactly the prefixes left over. */
  lemma SubtableCount(lens: Lengths, q: nat)
    requires 1 <= q <= MAX_BITS && !Oversubscribed(lens)
    ensures Used(lens, q) <= Shl(1, MAX_BITS) && TakenHeads(lens, q) <= Shl(1, q)
    ensures Shr(Shl(1, MAX_BITS) - Used(lens, q), MAX_BITS - q) == Shl(1, q) - TakenHeads(lens, q)
  {
    hide NextCode, LengthCount, Shr, Used, TakenHeads, Shl;
    var k := MAX_BITS - q;
    UsedMonotone(lens, q, MAX_BITS);
    TakenIsUsed(lens, q);
    ShlTwice(1, q, k);
    var taken, all := TakenHeads(lens, q), Shl(1, q);
    if taken > all {
      ShlMonotone(all + 1, taken, k);
      ShlAdd(all, 1, k);
    } else {
      ShlAdd(all - taken, taken, k);
      ShrOfShl(all - taken, k);
    }
  }

  /** A new subtable always fits in the allocation. */
  lemma RoomForHead(lens: Lengths, q: nat, m: nat, heads: seq<nat>)
    requires 1 <= q && !Oversubscribed(lens) && HeadsOf(lens, q, m, heads)
    requires TakenHeads(lens, q) <= Shl(1, q)
    ensures |heads| <= Shl(1, q) - TakenHeads(lens, q)
  {
    hide TakenHeads, Shl, Shr, Code, Oversubscribed;
    forall t | 0 <= t < |heads|
      ensures TakenHeads(lens, q) <= heads[t] < Shl(1, q)
    {
      assert HasHead(lens, q, m, heads[t]);
      var sym: nat :| sym < m && Long(lens, q, sym) && Head(lens, q, sym) == heads[t];
      HeadNotTaken(lens, q, sym);
      HeadFits(lens, q, sym);
    }
    DistinctBelow(heads, TakenHeads(lens, q), Shl(1, q));
  }

  // ---------- at most every second symbol starts a subtable ----------

  function LongTotal(lens: Lengths, q: nat, b: nat): nat {
    if b <= q then 0 else LongTotal(lens, q, b - 1) + LengthCount(lens, b)
  }

  /** Symbols of more than `q` and at most `b` bits among the first `n`. */
  function CountBetween(lens: Lengths, q: nat, b: nat, n: nat): (c: nat)
    requires n <= |lens|
    ensures c <= n
  {
    if n == 0 then 0 else CountBetween(lens, q, b, n - 1) + if q < lens[n - 1] <= b then 1 else 0
  }

  lemma {:induction false} CountBetweenStep(lens: Lengths, q: nat, b: nat, n: nat)
    requires q < b && n <= |lens|
    ensures CountBetween(lens, q, b, n) == CountBetween(lens, q, b - 1, n) + Count(lens, b, n)
  {
    if n > 0 {
      CountBetweenStep(lens, q, b, n - 1);
    }
  }

  lemma {:induction false} CountBetweenNone(lens: Lengths, q: nat, b: nat, n: nat)
    requires b <= q && n <= |lens|
    ensures CountBetween(lens, q, b, n) == 0
  {
    if n > 0 {
      CountBetweenNone(lens, q, b, n - 1);
    }
  }

  lemma {:induction false} LongTotalIsCount(lens: Lengths, q: nat, b: nat)
    ensures LongTotal(lens, q, b) == CountBetween(lens, q, b, |lens|)
    decreases b
  {
    if b <= q {
      CountBetweenNone(lens, q, b, |lens|);
    } else {
      LongTotalIsCount(lens, q, b - 1);
      CountBetweenStep(lens, q, b, |lens|);
    }
  }

  /** Each code of more than `q` bits takes at most half of a `q`-bit prefix. */
  lemma {:induction false} LongSpace(lens: Lengths, q: nat, b: nat)
    requires q <= b <= MAX_BITS && q < MAX_BITS
    ensures Used(lens, b) <= Used(lens, q) + Shl(LongTotal(lens, q, b), MAX_BITS - 1 - q)
    decreases b
  {
    hide LengthCount;
    if q < b {
      LongSpace(lens, q, b - 1);
      ShlPowerMonotone(LengthCount(lens, b), MAX_BITS - b, MAX_BITS - 1 - q);
      ShlAdd(LongTotal(lens, q, b - 1), LengthCount(lens, b), MAX_BITS - 1 - q);
    }
  }

  lemma HeadBelow(lens: Lengths, q: nat, sym: nat)
    requires 1 <= q < MAX_BITS && Long(lens, q, sym)
    ensures Head(lens, q, sym) < TakenHeads(lens, q) + (|lens| + 1) / 2
  {
    hide Shl, Shr, Code, Used, TakenHeads, NextCode, LongTotal, Count;
    var k, n, h, taken := MAX_BITS - q, lens[sym], Head(lens, q, sym), TakenHeads(lens, q);
    CodeEnd(lens, sym);
    UsedMonotone(lens, n, MAX_BITS);
    LongSpace(lens, q, MAX_BITS);
    TakenIsUsed(lens, q);
    LongTotalIsCount(lens, q, MAX_BITS);
    ShlMonotone(LongTotal(lens, q, MAX_BITS), |lens|, k - 1);
    HeadStart(Code(lens, sym), n - q, MAX_BITS - n);
    HalfUnits(h, taken, |lens|, k);
  }

  /** The prefix of a code starts no later than the code. */
  lemma HeadStart(code: nat, k: nat, rest: nat)
    ensures Shl(Shr(code, k), k + rest) < Shl(code + 1, rest)
  {
    hide Shl, Shr, Low;
    HighLow(code, k);
    ShlTwice(Shr(code, k), k, rest);
    ShlMonotone(Shl(Shr(code, k), k), code, rest);
    ShlAdd(code, 1, rest);
    ShlPowerMonotone(1, 0, rest);
    Powers();
  }

  lemma HalfUnits(h: nat, taken: nat, n: nat, k: nat)
    requires k >= 1 && Shl(h, k) < Shl(taken, k) + Shl(n, k - 1)
    ensures h < taken + (n + 1) / 2
  {
    if h >= taken + (n + 1) / 2 {
      var half := (n + 1) / 2;
      ShlMonotone(taken + half, h, k);
      ShlAdd(taken, half, k);
      ShlDouble(half, k - 1);
      ShlMonotone(n, 2 * half, k - 1);
    }
  }

  lemma FewHeads(lens: Lengths, q: nat, m: nat, heads: seq<nat>)
    requires 1 <= q < MAX_BITS && HeadsOf(lens, q, m, heads)
    ensures |heads| <= (|lens| + 1) / 2
  {
    hide TakenHeads, Shl, Shr, Code;
    forall t | 0 <= t < |heads|
      ensures TakenHeads(lens, q) <= heads[t] < TakenHeads(lens, q) + (|lens| + 1) / 2
    {
      assert HasHead(lens, q, m, heads[t]);
      var sym: nat :| sym < m && Long(lens, q, sym) && Head(lens, q, sym) == heads[t];
      HeadNotTaken(lens, q, sym);
      HeadBelow(lens, q, sym);
    }
    DistinctBelow(heads, TakenHeads(lens, q), TakenHeads(lens, q) + (|lens| + 1) / 2);
  }

  // ---------- pointers ----------

  /** With `n` symbols and main tables of up to `maxQuick` bits, all byte offsets fit in 15 bits. */
  predicate OffsetsFit(n: nat, maxQuick: nat) {
    maxQuick < MAX_BITS
    && HEADER_BYTES + ENTRY_BYTES * SubStart(Shl(1, maxQuick), Shl(1, MAX_BITS - maxQuick), (n + 1) / 2)
       <= HUFFINFO_LONG_MASK
  }

  /** True of the code-length, literal/length and distance alphabets. */
  lemma CallSitesFit(n: nat)
    ensures n <= 32 ==> OffsetsFit(n, 6)
    ensures n <= 288 ==> OffsetsFit(n, 9)
  {
    Powers();
    hide Shl;
    if n <= 32 {
      SubStartSum(Shl(1, 6), Shl(1, 9), (n + 1) / 2);
    }
    if n <= 288 {
      SubStartSum(Shl(1, 9), Shl(1, 6), (n + 1) / 2);
    }
  }

  lemma {:induction false} SubStartGrows(main: nat, len: nat, len': nat, t: nat, t': nat)
    requires len <= len' && t <= t'
    ensures SubStart(main, len, t) <= SubStart(main, len', t')
    decreases t'
  {
    if t < t' {
      SubStartGrows(main, len, len', t, t' - 1);
    } else if t > 0 {
      SubStartGrows(main, len, len', t - 1, t' - 1);
    }
  }

  lemma LongEntryFits(lens: Lengths, q: nat, top: nat, subLen: nat, m: nat, heads: seq<nat>, t: nat)
    requires 1 <= q < top <= MAX_BITS && subLen == Shl(1, top - q) && OffsetsFit(|lens|, q)
    requires HeadsOf(lens, q, m, heads) && t < |heads|
    ensures Pointer(Shl(1, q), subLen, t) < 2 * HUFFINFO_LONG_MASK
  {
    hide Shl, SubStart, HeadsOf;
    FewHeads(lens, q, m, heads);
    ShlPowerMonotone(1, top - q, MAX_BITS - q);
    SubStartGrows(Shl(1, q), subLen, Shl(1, MAX_BITS - q), t + 1, (|lens| + 1) / 2);
    SubStartLess(Shl(1, q), subLen, t);
    ShlPowerMonotone(1, 0, top - q);
    Powers();
  }

  lemma SubStartLess(main: nat, len: nat, t: nat)
    ensures SubStart(main, len, t + 1) == SubStart(main, len, t) + len
  {}
}
