/** The two-level lookup table that the inflater builds from code lengths: a main table indexed
    by the first `quickBits` bits, whose entries for longer codes point to subtables. */
module HuffmanTable {
  import opened Bits
  import opened Wrappers
  import opened Huffman

  const HUFFINFO_LONG_MASK: nat := 0x8000
  const HEADER_BYTES: nat := 4
  const ENTRY_BYTES: nat := 2

  /** The entry for a symbol: the symbol above four bits of code length. */
  function Huff(lens: Lengths, sym: nat): nat
    requires sym < |lens|
  {
    16 * sym + lens[sym]
  }

  /** Index of the first entry of subtable `t`, after a main table of `main` entries. */
  function SubStart(main: nat, len: nat, t: nat): (r: nat)
    ensures main <= r
  {
    if t == 0 then main else SubStart(main, len, t - 1) + len
  }

  /** Table entry that points to subtable `t`: its byte offset from the table header. */
  function Pointer(main: nat, len: nat, t: nat): nat {
    HUFFINFO_LONG_MASK + HEADER_BYTES + ENTRY_BYTES * SubStart(main, len, t)
  }

  /** The code of a symbol, first bit least significant. */
  function RevCode(lens: Lengths, sym: nat): nat
    requires sym < |lens|
  {
    Rev(Code(lens, sym), lens[sym])
  }

  predicate ShortHit(lens: Lengths, q: nat, sym: nat, idx: nat) {
    Matches(lens, sym, idx) && lens[sym] <= q
  }

  predicate Long(lens: Lengths, q: nat, sym: nat) {
    sym < |lens| && lens[sym] > q
  }

  /** The first `q` bits of a longer code, as a number most significant bit first. */
  function Head(lens: Lengths, q: nat, sym: nat): nat
    requires Long(lens, q, sym)
  {
    Shr(Code(lens, sym), lens[sym] - q)
  }

  predicate LongHit(lens: Lengths, q: nat, sym: nat, head: nat, j: nat) {
    Long(lens, q, sym) && Head(lens, q, sym) == head && Low(j, lens[sym] - q) == Shr(RevCode(lens, sym), q)
  }

  // ---------- contents of a partly filled table ----------

  /** Main-table entry `idx` after the first `m` symbols, when the subtables allocated so far
      are those of `heads`. */
  ghost predicate MainEntry(lens: Lengths, q: nat, subLen: nat, m: nat, heads: seq<nat>, idx: nat, x: nat) {
    && (forall sym: nat :: sym < m && ShortHit(lens, q, sym, idx) ==> x == Huff(lens, sym))
    && (forall t: nat :: t < |heads| && Rev(heads[t], q) == idx ==> x == Pointer(Shl(1, q), subLen, t))
    && (x == 0 || (exists sym: nat :: sym < m && ShortHit(lens, q, sym, idx))
               || (exists t: nat :: t < |heads| && Rev(heads[t], q) == idx))
  }

  /** Entry `j` of the subtable of `head`, which starts at `start`, after the first `m` symbols. */
  ghost predicate SubEntry(lens: Lengths, q: nat, m: nat, head: nat, e: seq<nat>, start: nat, j: nat) {
    && start + j < |e|
    && (forall sym: nat :: sym < m && LongHit(lens, q, sym, head, j) ==> e[start + j] == Huff(lens, sym))
    && (e[start + j] == 0 || exists sym: nat :: sym < m && LongHit(lens, q, sym, head, j))
  }

  ghost predicate SubFilled(lens: Lengths, q: nat, subLen: nat, m: nat, head: nat, e: seq<nat>, start: nat) {
    forall j: nat :: j < subLen ==> SubEntry(lens, q, m, head, e, start, j)
  }

  ghost predicate HasHead(lens: Lengths, q: nat, m: nat, head: nat) {
    exists sym: nat :: sym < m && Long(lens, q, sym) && Head(lens, q, sym) == head
  }

  /** Exactly the heads of the long codes among the first `m` symbols have subtables. */
  ghost predicate HeadsOf(lens: Lengths, q: nat, m: nat, heads: seq<nat>) {
    && (forall t: nat :: t < |heads| ==> HasHead(lens, q, m, heads[t]))
    && (forall sym: nat :: sym < m && Long(lens, q, sym) ==> Head(lens, q, sym) in heads)
    && (forall t: nat, u: nat :: t < u < |heads| ==> heads[t] != heads[u])
  }

  ghost predicate Filled(lens: Lengths, q: nat, subLen: nat, m: nat, heads: seq<nat>, e: seq<nat>) {
    var main := Shl(1, q);
    && HeadsOf(lens, q, m, heads)
    && SubStart(main, subLen, |heads|) <= |e|
    && (forall idx: nat :: idx < main ==> idx < |e| && MainEntry(lens, q, subLen, m, heads, idx, e[idx]))
    && (forall t: nat :: t < |heads| ==> SubFilled(lens, q, subLen, m, heads[t], e, SubStart(main, subLen, t)))
    && (forall i: nat :: SubStart(main, subLen, |heads|) <= i < |e| ==> e[i] == 0)
  }

  // ---------- looking up ----------

  /** The entry found for the bits `w` in table contents `e`. */
  function LookupIn(e: seq<nat>, q: nat, top: nat, w: nat): Option<nat> {
    if Low(w, q) >= |e| then None else
    var huff := e[Low(w, q)];
    if huff < HUFFINFO_LONG_MASK then Some(huff) else
    var delta := huff - HUFFINFO_LONG_MASK;
    if delta < HEADER_BYTES then None else
    var i := (delta - HEADER_BYTES) / ENTRY_BYTES + Shr(Low(w, top), q);
    if i < |e| then Some(e[i]) else None
  }

  /** The entry that the bits `w` should give: zero if they start with no code. */
  ghost predicate EntryFor(lens: Lengths, w: nat, x: nat) {
    && (forall sym :: Matches(lens, sym, w) ==> x == Huff(lens, sym))
    && (x == 0 || exists sym :: Matches(lens, sym, w))
  }

  lemma {:induction false} SubStartSum(main: nat, len: nat, t: nat)
    ensures SubStart(main, len, t) == main + t * len
  {
    if t > 0 {
      SubStartSum(main, len, t - 1);
      assert (t - 1) * len + len == t * len;
    }
  }

  lemma SubStartMonotone(main: nat, len: nat, t: nat, u: nat)
    requires t <= u
    ensures SubStart(main, len, t) <= SubStart(main, len, u)
    ensures t < u ==> SubStart(main, len, t) + len <= SubStart(main, len, u)
    decreases u - t
  {
    if t + 1 < u {
      SubStartMonotone(main, len, t, u - 1);
    }
  }

  /** A short code that matches is found in the main table. */
  lemma ShortMatch(lens: Lengths, q: nat, sym: nat, w: nat)
    requires sym < |lens| && lens[sym] <= q
    ensures Matches(lens, sym, w) <==> ShortHit(lens, q, sym, Low(w, q))
  {
    hide Low, Rev, Code;
    LowOfLow(w, lens[sym], q - lens[sym]);
  }

  /** The two parts of a long code that matches: its head selects the subtable, the rest the entry. */
  lemma LongMatch(lens: Lengths, q: nat, top: nat, sym: nat, w: nat)
    requires Long(lens, q, sym) && lens[sym] <= top
    ensures Matches(lens, sym, w)
       <==> Rev(Head(lens, q, sym), q) == Low(w, q) && LongHit(lens, q, sym, Head(lens, q, sym), Shr(Low(w, top), q))
  {
    hide Rev, Low, Shr, Code;
    var n := lens[sym];
    RevLow(Code(lens, sym), n - q, q);
    MatchInParts(RevCode(lens, sym), w, q, n - q, top - n);
  }

  lemma MatchInParts(code: nat, w: nat, q: nat, k: nat, rest: nat)
    ensures Low(w, q + k) == code
       <==> Low(code, q) == Low(w, q) && Low(Shr(Low(w, q + k + rest), q), k) == Shr(code, q)
  {
    hide *;
    SuffixOfWindow(w, q, k, rest);
    LowOfLow(w, q, k);
    if Low(code, q) == Low(w, q) && Shr(Low(w, q + k), q) == Shr(code, q) {
      SplitEqual(code, Low(w, q + k), q);
    }
  }

  lemma SplitEqual(v: nat, w: nat, k: nat)
    requires Low(v, k) == Low(w, k) && Shr(v, k) == Shr(w, k)
    ensures v == w
  {
    HighLow(v, k);
    HighLow(w, k);
  }

  lemma SuffixOfWindow(w: nat, q: nat, k: nat, rest: nat)
    ensures Low(Shr(Low(w, q + k + rest), q), k) == Shr(Low(w, q + k), q)
  {
    hide *;
    LowOfLow(w, q, k + rest);
    LowOfLow(w, q, k);
    LowOfLow(Shr(w, q), k, rest);
  }

  lemma HeadFits(lens: Lengths, q: nat, sym: nat)
    requires !Oversubscribed(lens) && Long(lens, q, sym)
    ensures Head(lens, q, sym) < Shl(1, q)
  {
    CodeFits(lens, sym);
    ShlTwice(1, q, lens[sym] - q);
    ShrUpper(Code(lens, sym), Shl(1, q), lens[sym] - q);
  }

  /** The symbols, code lengths and subtable sizes of a complete table. */
  ghost predicate Shape(lens: Lengths, q: nat, top: nat, subLen: nat) {
    && !Oversubscribed(lens) && |lens| < 2048
    && 1 <= q <= top <= MAX_BITS
    && (forall i :: 0 <= i < |lens| ==> lens[i] <= top)
    && subLen == (if q < top then Shl(1, top - q) else 0)
  }

  // ---------- a complete table finds every code ----------

  /** The lookup returns the entry of the one symbol whose code starts the bits `w`, or zero. */
  lemma LookupFinds(lens: Lengths, q: nat, top: nat, subLen: nat, heads: seq<nat>, e: seq<nat>, w: nat)
    requires Shape(lens, q, top, subLen) && Filled(lens, q, subLen, |lens|, heads, e)
    ensures LookupIn(e, q, top, w).Some? && EntryFor(lens, w, LookupIn(e, q, top, w).value)
  {
    hide Low, Shr, Rev, Matches, Oversubscribed, LongHit, EntryFor;
    var idx := Low(w, q);
    assert MainEntry(lens, q, subLen, |lens|, heads, idx, e[idx]);
    if sym: nat :| sym < |lens| && ShortHit(lens, q, sym, idx) {
      ShortFinds(lens, q, sym, w);
    } else if t: nat :| t < |heads| && Rev(heads[t], q) == idx {
      SubtableFinds(lens, q, top, subLen, heads, e, w, t);
    } else {
      NothingFound(lens, q, top, heads, w);
    }
  }

  lemma ShortFinds(lens: Lengths, q: nat, sym: nat, w: nat)
    requires !Oversubscribed(lens) && ShortHit(lens, q, sym, Low(w, q))
    ensures EntryFor(lens, w, Huff(lens, sym))
  {
    hide Low, Rev, Oversubscribed, Code;
    ShortMatch(lens, q, sym, w);
    assert Matches(lens, sym, w);
    hide Matches;
    forall other: nat | Matches(lens, other, w)
      ensures other == sym
    {
      MatchUnique(lens, sym, other, w);
    }
  }

  lemma NothingFound(lens: Lengths, q: nat, top: nat, heads: seq<nat>, w: nat)
    requires forall i :: 0 <= i < |lens| ==> lens[i] <= top
    requires HeadsOf(lens, q, |lens|, heads)
    requires forall sym: nat :: sym < |lens| ==> !ShortHit(lens, q, sym, Low(w, q))
    requires forall t: nat :: t < |heads| ==> Rev(heads[t], q) != Low(w, q)
    ensures EntryFor(lens, w, 0)
  {
    hide Low, Rev, Shr, Code;
    forall sym: nat | Matches(lens, sym, w)
      ensures false
    {
      if lens[sym] <= q {
        ShortMatch(lens, q, sym, w);
      } else {
        LongMatch(lens, q, top, sym, w);
      }
    }
  }

  /** Where the bits `w` lead in the subtable of head `t`. */
  lemma SubtableFinds(lens: Lengths, q: nat, top: nat, subLen: nat, heads: seq<nat>, e: seq<nat>, w: nat, t: nat)
    requires Shape(lens, q, top, subLen) && Filled(lens, q, subLen, |lens|, heads, e)
    requires forall sym: nat :: sym < |lens| ==> !ShortHit(lens, q, sym, Low(w, q))
    requires t < |heads| && Rev(heads[t], q) == Low(w, q)
    ensures LookupIn(e, q, top, w).Some? && EntryFor(lens, w, LookupIn(e, q, top, w).value)
  {
    hide Low, Shr, Rev, Shl, Matches, LongHit, EntryFor, Oversubscribed, Used, Code;
    var main, idx, j := Shl(1, q), Low(w, q), Shr(Low(w, top), q);
    assert MainEntry(lens, q, subLen, |lens|, heads, idx, e[idx]);
    SubtableIsNeeded(lens, q, top, heads, t);
    SubIndexFits(q, top, w);
    assert SubFilled(lens, q, subLen, |lens|, heads[t], e, SubStart(main, subLen, t));
    assert SubEntry(lens, q, |lens|, heads[t], e, SubStart(main, subLen, t), j);
    SubEntryFinds(lens, q, top, heads, t, w, e[SubStart(main, subLen, t) + j]);
  }

  lemma SubtableIsNeeded(lens: Lengths, q: nat, top: nat, heads: seq<nat>, t: nat)
    requires forall i :: 0 <= i < |lens| ==> lens[i] <= top
    requires HeadsOf(lens, q, |lens|, heads) && t < |heads|
    ensures q < top
  {
    hide Shr, Code;
    assert HasHead(lens, q, |lens|, heads[t]);
    var sym: nat :| sym < |lens| && Long(lens, q, sym) && Head(lens, q, sym) == heads[t];
  }

  lemma SubIndexFits(q: nat, top: nat, w: nat)
    requires q < top
    ensures Shr(Low(w, top), q) < Shl(1, top - q)
  {
    hide Shr, Low, Shl;
    ShlTwice(1, top - q, q);
    ShrUpper(Low(w, top), Shl(1, top - q), q);
  }

  lemma SubEntryFinds(lens: Lengths, q: nat, top: nat, heads: seq<nat>, t: nat, w: nat, x: nat)
    requires !Oversubscribed(lens) && (forall i :: 0 <= i < |lens| ==> lens[i] <= top)
    requires HeadsOf(lens, q, |lens|, heads)
    requires forall sym: nat :: sym < |lens| ==> !ShortHit(lens, q, sym, Low(w, q))
    requires t < |heads| && Rev(heads[t], q) == Low(w, q)
    requires forall sym: nat :: sym < |lens| && LongHit(lens, q, sym, heads[t], Shr(Low(w, top), q)) ==>
             x == Huff(lens, sym)
    requires x == 0 || exists sym: nat :: sym < |lens| && LongHit(lens, q, sym, heads[t], Shr(Low(w, top), q))
    ensures EntryFor(lens, w, x)
  {
    hide Low, Shr, Rev, Shl, Oversubscribed, Used, Code, RevCode;
    forall sym: nat | Matches(lens, sym, w)
      ensures x == Huff(lens, sym)
    {
      if lens[sym] <= q {
        ShortMatch(lens, q, sym, w);
      } else {
        LongMatch(lens, q, top, sym, w);
        SameHead(lens, q, heads, t, sym);
      }
    }
    if x != 0 {
      var sym: nat :| sym < |lens| && LongHit(lens, q, sym, heads[t], Shr(Low(w, top), q));
      LongMatch(lens, q, top, sym, w);
    }
  }

  /** A head is determined by its main-table index. */
  lemma SameHead(lens: Lengths, q: nat, heads: seq<nat>, t: nat, sym: nat)
    requires !Oversubscribed(lens) && HeadsOf(lens, q, |lens|, heads) && t < |heads|
    requires Long(lens, q, sym) && Rev(Head(lens, q, sym), q) == Rev(heads[t], q)
    ensures Head(lens, q, sym) == heads[t]
  {
    hide Rev, Oversubscribed, Shr, Code;
    assert HasHead(lens, q, |lens|, heads[t]);
    var other: nat :| other < |lens| && Long(lens, q, other) && Head(lens, q, other) == heads[t];
    HeadFits(lens, q, sym);
    HeadFits(lens, q, other);
    RevInjective(Head(lens, q, sym), heads[t], q);
  }

  // ---------- filling in one symbol at a time ----------

  /** A short code and the head of a longer code never share a main-table entry. */
  lemma ShortOrLong(lens: Lengths, q: nat, short: nat, long: nat, idx: nat)
    requires !Oversubscribed(lens) && ShortHit(lens, q, short, idx) && Long(lens, q, long)
    ensures Rev(Head(lens, q, long), q) != idx
  {
    hide Low, Rev, Shr, Code, Oversubscribed;
    if Rev(Head(lens, q, long), q) == idx {
      var n, w := lens[long], RevCode(lens, long);
      RevLow(Code(lens, long), n - q, q);
      LowOfLow(w, lens[short], q - lens[short]);
      RevCodeMatches(lens, long);
      MatchUnique(lens, short, long, w);
    }
  }

  lemma RevCodeMatches(lens: Lengths, sym: nat)
    requires sym < |lens| && lens[sym] >= 1
    ensures Matches(lens, sym, RevCode(lens, sym))
  {
    hide Low, Rev, Code;
    LowSmall(RevCode(lens, sym), lens[sym]);
  }

  /** No two long codes share a subtable entry. */
  lemma LongHitUnique(lens: Lengths, q: nat, top: nat, s1: nat, s2: nat, head: nat, j: nat)
    requires !Oversubscribed(lens) && (forall i :: 0 <= i < |lens| ==> lens[i] <= top)
    requires q < top && j < Shl(1, top - q)
    requires LongHit(lens, q, s1, head, j) && LongHit(lens, q, s2, head, j)
    ensures s1 == s2
  {
    hide Low, Rev, Shr, Shl, Code, Oversubscribed, RevCode;
    var r := Rev(head, q);
    var w := Shl(j, q) + r;
    HighLowUnique(j, r, q);
    ShlTwice(1, top - q, q);
    ShlAdd(j, 1, q);
    ShlMonotone(j + 1, Shl(1, top - q), q);
    LowSmall(w, top);
    LongMatch(lens, q, top, s1, w);
    LongMatch(lens, q, top, s2, w);
    MatchUnique(lens, s1, s2, w);
  }

  /** A symbol that does not touch a subtable leaves it filled. */
  lemma SubUnchanged(lens: Lengths, q: nat, subLen: nat, m: nat, n: nat, head: nat,
                     e: seq<nat>, e': seq<nat>, start: nat)
    requires m < |lens| && n == m + 1 && !(Long(lens, q, m) && Head(lens, q, m) == head)
    requires SubFilled(lens, q, subLen, m, head, e, start) && |e'| == |e|
    requires forall i: nat :: start <= i < start + subLen && i < |e| ==> e'[i] == e[i]
    ensures SubFilled(lens, q, subLen, n, head, e', start)
  {
    hide Low, Rev, Shr, Code, RevCode, Huff;
    forall j: nat | j < subLen
      ensures SubEntry(lens, q, n, head, e', start, j)
    {
      assert SubEntry(lens, q, m, head, e, start, j);
      assert e'[start + j] == e[start + j];
    }
  }

  lemma MainUnchanged(lens: Lengths, q: nat, subLen: nat, m: nat, heads: seq<nat>, idx: nat, x: nat)
    requires !ShortHit(lens, q, m, idx) && MainEntry(lens, q, subLen, m, heads, idx, x)
    ensures MainEntry(lens, q, subLen, m + 1, heads, idx, x)
  {
    hide Low, Rev, Huff, Pointer, Shl;
  }

  lemma ZeroStep(lens: Lengths, q: nat, subLen: nat, m: nat, heads: seq<nat>, e: seq<nat>)
    requires m < |lens| && lens[m] == 0 && Filled(lens, q, subLen, m, heads, e)
    ensures Filled(lens, q, subLen, m + 1, heads, e)
  {
    hide Low, Rev, Shr, Shl, Code, RevCode, SubStart, MainEntry, SubFilled;
    forall idx: nat | idx < Shl(1, q)
      ensures MainEntry(lens, q, subLen, m + 1, heads, idx, e[idx])
    {
      MainUnchanged(lens, q, subLen, m, heads, idx, e[idx]);
    }
    forall t: nat | t < |heads|
      ensures SubFilled(lens, q, subLen, m + 1, heads[t], e, SubStart(Shl(1, q), subLen, t))
    {
      SubUnchanged(lens, q, subLen, m, m + 1, heads[t], e, e, SubStart(Shl(1, q), subLen, t));
    }
    HeadsUnchanged(lens, q, m, heads);
  }

  /** Writing a short code into every main-table entry that starts with it. */
  lemma ShortStep(lens: Lengths, q: nat, subLen: nat, m: nat, heads: seq<nat>, e: seq<nat>, e': seq<nat>)
    requires !Oversubscribed(lens) && m < |lens| && 1 <= lens[m] <= q
    requires Filled(lens, q, subLen, m, heads, e) && |e'| == |e|
    requires forall idx: nat :: idx < Shl(1, q) ==>
               e'[idx] == if Low(idx, lens[m]) == RevCode(lens, m) then Huff(lens, m) else e[idx]
    requires forall i :: Shl(1, q) <= i < |e| ==> e'[i] == e[i]
    ensures Filled(lens, q, subLen, m + 1, heads, e')
  {
    hide Low, Rev, Shr, Shl, Code, RevCode, Oversubscribed, Huff, MainEntry, SubFilled;
    var main := Shl(1, q);
    forall idx: nat | idx < main
      ensures MainEntry(lens, q, subLen, m + 1, heads, idx, e'[idx])
    {
      ShortStepMain(lens, q, subLen, m, heads, idx, e[idx], e'[idx]);
    }
    forall t: nat | t < |heads|
      ensures SubFilled(lens, q, subLen, m + 1, heads[t], e', SubStart(main, subLen, t))
    {
      SubUnchanged(lens, q, subLen, m, m + 1, heads[t], e, e', SubStart(main, subLen, t));
    }
    HeadsUnchanged(lens, q, m, heads);
  }

  lemma HeadsUnchanged(lens: Lengths, q: nat, m: nat, heads: seq<nat>)
    requires m < |lens| && !Long(lens, q, m) && HeadsOf(lens, q, m, heads)
    ensures HeadsOf(lens, q, m + 1, heads)
  {
    hide Shr, Code;
    forall t: nat | t < |heads|
      ensures HasHead(lens, q, m + 1, heads[t])
    {
      assert HasHead(lens, q, m, heads[t]);
      var sym: nat :| sym < m && Long(lens, q, sym) && Head(lens, q, sym) == heads[t];
    }
    assert forall sym: nat :: sym < m + 1 && Long(lens, q, sym) ==> Head(lens, q, sym) in heads;
  }

  lemma ShortStepMain(lens: Lengths, q: nat, subLen: nat, m: nat, heads: seq<nat>, idx: nat, x: nat, x': nat)
    requires !Oversubscribed(lens) && m < |lens| && 1 <= lens[m] <= q && HeadsOf(lens, q, m, heads)
    requires MainEntry(lens, q, subLen, m, heads, idx, x)
    requires x' == if Low(idx, lens[m]) == RevCode(lens, m) then Huff(lens, m) else x
    ensures MainEntry(lens, q, subLen, m + 1, heads, idx, x')
  {
    hide Low, Rev, Shr, Shl, Code, RevCode, SubStart, Oversubscribed, Huff, Pointer;
    assert ShortHit(lens, q, m, idx) <==> Low(idx, lens[m]) == RevCode(lens, m) by {
      hide *;
      HitIsCode(lens, q, m, idx);
    }
    if ShortHit(lens, q, m, idx) {
      forall sym: nat | sym < m && ShortHit(lens, q, sym, idx)
        ensures false
      {
        MatchUnique(lens, sym, m, idx);
      }
      forall t: nat | t < |heads| && Rev(heads[t], q) == idx
        ensures false
      {
        assert HasHead(lens, q, m, heads[t]);
        var long: nat :| long < m && Long(lens, q, long) && Head(lens, q, long) == heads[t];
        ShortOrLong(lens, q, m, long, idx);
      }
    }
  }

  lemma HitIsCode(lens: Lengths, q: nat, sym: nat, idx: nat)
    requires sym < |lens| && 1 <= lens[sym] <= q
    ensures ShortHit(lens, q, sym, idx) <==> Low(idx, lens[sym]) == RevCode(lens, sym)
  {
    hide Low, Rev, Code;
  }

  // ---------- long codes ----------

  lemma HeadIndexUnique(lens: Lengths, q: nat, s1: nat, s2: nat)
    requires !Oversubscribed(lens) && Long(lens, q, s1) && Long(lens, q, s2)
    requires Rev(Head(lens, q, s1), q) == Rev(Head(lens, q, s2), q)
    ensures Head(lens, q, s1) == Head(lens, q, s2)
  {
    hide Rev, Oversubscribed, Shr, Code;
    HeadFits(lens, q, s1);
    HeadFits(lens, q, s2);
    RevInjective(Head(lens, q, s1), Head(lens, q, s2), q);
  }

  /** The main entry of a long code is zero exactly when its subtable does not exist yet. */
  lemma HeadEntry(lens: Lengths, q: nat, subLen: nat, m: nat, heads: seq<nat>, x: nat)
    requires !Oversubscribed(lens) && Long(lens, q, m) && HeadsOf(lens, q, m, heads)
    requires MainEntry(lens, q, subLen, m, heads, Rev(Head(lens, q, m), q), x)
    ensures x == 0 <==> Head(lens, q, m) !in heads
    ensures forall t: nat :: t < |heads| && heads[t] == Head(lens, q, m) ==> x == Pointer(Shl(1, q), subLen, t)
  {
    hide Rev, Oversubscribed, ShortHit, Shl, SubStart, Shr, Code;
    var idx := Rev(Head(lens, q, m), q);
    forall sym: nat | sym < m && ShortHit(lens, q, sym, idx)
      ensures false
    {
      ShortOrLong(lens, q, sym, m, idx);
    }
    forall t: nat | t < |heads| && Rev(heads[t], q) == idx
      ensures heads[t] == Head(lens, q, m)
    {
      assert HasHead(lens, q, m, heads[t]);
      var other: nat :| other < m && Long(lens, q, other) && Head(lens, q, other) == heads[t];
      HeadIndexUnique(lens, q, m, other);
    }
  }

  lemma LongStepMain(lens: Lengths, q: nat, subLen: nat, m: nat, heads: seq<nat>, heads': seq<nat>, t: nat,
                     idx: nat, x: nat, x': nat)
    requires !Oversubscribed(lens) && Long(lens, q, m) && HeadsOf(lens, q, m, heads)
    requires heads' == heads || heads' == heads + [Head(lens, q, m)]
    requires t < |heads'| && heads'[t] == Head(lens, q, m)
    requires heads' == heads + [Head(lens, q, m)] ==> t == |heads| && Head(lens, q, m) !in heads
    requires MainEntry(lens, q, subLen, m, heads, idx, x)
    requires x' == if idx == Rev(Head(lens, q, m), q) then Pointer(Shl(1, q), subLen, t) else x
    ensures MainEntry(lens, q, subLen, m + 1, heads', idx, x')
  {
    hide Rev, Oversubscribed, Shl, SubStart, Matches, Shr, Code;
    if idx == Rev(Head(lens, q, m), q) {
      forall sym: nat | sym <= m && ShortHit(lens, q, sym, idx)
        ensures false
      {
        ShortOrLong(lens, q, sym, m, idx);
      }
      forall u: nat | u < |heads'| && Rev(heads'[u], q) == idx
        ensures u == t
      {
        if u < |heads| {
          assert HasHead(lens, q, m, heads[u]);
          var other: nat :| other < m && Long(lens, q, other) && Head(lens, q, other) == heads[u];
          HeadIndexUnique(lens, q, m, other);
        }
      }
    }
  }

  /** Writing a long code into every entry of its subtable that starts with its remaining bits. */
  lemma LongStepSub(lens: Lengths, q: nat, top: nat, subLen: nat, m: nat, n: nat, e: seq<nat>, e': seq<nat>, start: nat)
    requires !Oversubscribed(lens) && (forall i :: 0 <= i < |lens| ==> lens[i] <= top)
    requires Long(lens, q, m) && n == m + 1 && subLen == Shl(1, top - q)
    requires start + subLen <= |e| == |e'|
    requires SubFilled(lens, q, subLen, m, Head(lens, q, m), e, start)
    requires forall i: nat :: start <= i < start + subLen ==>
               e'[i] == if Low(i - start, lens[m] - q) == Shr(RevCode(lens, m), q) then Huff(lens, m) else e[i]
    ensures SubFilled(lens, q, subLen, n, Head(lens, q, m), e', start)
  {
    hide Low, Rev, Shr, Shl, Code, RevCode, Huff, Oversubscribed;
    var head := Head(lens, q, m);
    forall j: nat | j < subLen
      ensures SubEntry(lens, q, n, head, e', start, j)
    {
      assert SubEntry(lens, q, m, head, e, start, j);
      var i := start + j;
      assert i - start == j;
      assert e'[i] == if LongHit(lens, q, m, head, j) then Huff(lens, m) else e[i];
      forall sym: nat | sym < m && LongHit(lens, q, sym, head, j) && LongHit(lens, q, m, head, j)
        ensures false
      {
        LongHitUnique(lens, q, top, sym, m, head, j);
      }
    }
  }

  /** A fresh subtable is filled: no earlier code belongs in it. */
  lemma FreshSub(lens: Lengths, q: nat, subLen: nat, m: nat, heads: seq<nat>, head: nat, e: seq<nat>, start: nat)
    requires HeadsOf(lens, q, m, heads) && head !in heads && start + subLen <= |e|
    requires forall i :: start <= i < |e| ==> e[i] == 0
    ensures SubFilled(lens, q, subLen, m, head, e, start)
  {
    hide Low, Rev, Shr, Shl, Code, RevCode, Huff;
    forall j: nat | j < subLen
      ensures SubEntry(lens, q, m, head, e, start, j)
    {
      assert e[start + j] == 0;
    }
  }

  /** `heads'` has the head of symbol `m` at `t`, added at the end if it was not there. */
  ghost predicate HeadAdded(lens: Lengths, q: nat, m: nat, heads: seq<nat>, heads': seq<nat>, t: nat) {
    && Long(lens, q, m) && t < |heads'| && heads'[t] == Head(lens, q, m)
    && (heads' == heads || (heads' == heads + [Head(lens, q, m)] && t == |heads| && Head(lens, q, m) !in heads))
  }

  /** From `e` to `e'`, the pointer to subtable `t` was written for the long code of symbol `m`,
      and its entry wherever its remaining bits occur in that subtable. */
  ghost predicate LongWritten(lens: Lengths, q: nat, subLen: nat, m: nat, t: nat, e: seq<nat>, e': seq<nat>) {
    var main := Shl(1, q);
    var start := SubStart(main, subLen, t);
    && Long(lens, q, m) && main <= |e| == |e'|
    && (forall i: nat :: i < main ==>
          e'[i] == if i == Rev(Head(lens, q, m), q) then Pointer(main, subLen, t) else e[i])
    && (forall i: nat :: main <= i < |e| ==>
          e'[i] == if start <= i < start + subLen && Low(i - start, lens[m] - q) == Shr(RevCode(lens, m), q)
                   then Huff(lens, m) else e[i])
  }

  /** Entering a long code, whose subtable is `t` and may be new. */
  lemma LongStep(lens: Lengths, q: nat, top: nat, subLen: nat, m: nat, heads: seq<nat>, heads': seq<nat>, t: nat,
                 e: seq<nat>, e': seq<nat>)
    requires Shape(lens, q, top, subLen) && Filled(lens, q, subLen, m, heads, e)
    requires HeadAdded(lens, q, m, heads, heads', t) && LongWritten(lens, q, subLen, m, t, e, e')
    requires SubStart(Shl(1, q), subLen, |heads'|) <= |e|
    ensures Filled(lens, q, subLen, m + 1, heads', e')
  {
    hide Low, Rev, Shr, Shl, Code, RevCode, Huff, Oversubscribed, MainEntry, SubFilled, Pointer, SubStart, LongWritten;
    HeadsGrow(lens, q, m, heads, heads');
    assert |heads| <= |heads'| && Long(lens, q, m) && |e'|
           == |e| by { LongWrittenLength(lens, q, subLen, m, t, e, e'); }
    forall idx: nat | idx < Shl(1, q)
      ensures MainEntry(lens, q, subLen, m + 1, heads', idx, e'[idx])
    {
      LongStepMainAt(lens, q, top, subLen, m, heads, heads', t, e, e', idx);
    }
    forall u: nat | u < |heads'|
      ensures SubFilled(lens, q, subLen, m + 1, heads'[u], e', SubStart(Shl(1, q), subLen, u))
    {
      LongStepAt(lens, q, top, subLen, m, heads, heads', t, e, e', u);
    }
    LongStepRest(lens, q, subLen, m, heads, heads', t, e, e');
  }

  lemma LongWrittenLength(lens: Lengths, q: nat, subLen: nat, m: nat, t: nat, e: seq<nat>, e': seq<nat>)
    requires LongWritten(lens, q, subLen, m, t, e, e')
    ensures |e'| == |e|
  {
    hide Low, Rev, Shr, Shl, Code, RevCode, Huff, Pointer, SubStart;
  }

  lemma LongStepMainAt(lens: Lengths, q: nat, top: nat, subLen: nat, m: nat, heads: seq<nat>, heads': seq<nat>, t: nat,
                       e: seq<nat>, e': seq<nat>, idx: nat)
    requires Shape(lens, q, top, subLen) && Filled(lens, q, subLen, m, heads, e)
    requires HeadAdded(lens, q, m, heads, heads', t) && LongWritten(lens, q, subLen, m, t, e, e')
    requires idx < Shl(1, q)
    ensures MainEntry(lens, q, subLen, m + 1, heads', idx, e'[idx])
  {
    hide Low, Rev, Shr, Shl, Code, RevCode, Huff, Oversubscribed, MainEntry, SubFilled, Pointer, SubStart;
    LongStepMain(lens, q, subLen, m, heads, heads', t, idx, e[idx], e'[idx]);
  }

  lemma LongStepRest(lens: Lengths, q: nat, subLen: nat, m: nat, heads: seq<nat>, heads': seq<nat>, t: nat,
                     e: seq<nat>, e': seq<nat>)
    requires Filled(lens, q, subLen, m, heads, e)
    requires HeadAdded(lens, q, m, heads, heads', t) && LongWritten(lens, q, subLen, m, t, e, e')
    requires SubStart(Shl(1, q), subLen, |heads'|) <= |e|
    ensures forall i: nat :: SubStart(Shl(1, q), subLen, |heads'|) <= i < |e| ==> e'[i] == 0
  {
    hide Low, Rev, Shr, Shl, Code, RevCode, Head, Huff, MainEntry, SubFilled, Pointer, SubStart;
    SubStartMonotone(Shl(1, q), subLen, t, |heads'|);
    SubStartMonotone(Shl(1, q), subLen, |heads|, |heads'|);
  }

  lemma LongStepAt(lens: Lengths, q: nat, top: nat, subLen: nat, m: nat, heads: seq<nat>, heads': seq<nat>, t: nat,
                   e: seq<nat>, e': seq<nat>, u: nat)
    requires Shape(lens, q, top, subLen) && Filled(lens, q, subLen, m, heads, e)
    requires HeadsOf(lens, q, m + 1, heads') && u < |heads'|
    requires HeadAdded(lens, q, m, heads, heads', t) && LongWritten(lens, q, subLen, m, t, e, e')
    requires SubStart(Shl(1, q), subLen, |heads'|) <= |e|
    ensures SubFilled(lens, q, subLen, m + 1, heads'[u], e', SubStart(Shl(1, q), subLen, u))
  {
    hide Low, Rev, Shr, Shl, Code, RevCode, Huff, Oversubscribed, MainEntry, SubFilled, Pointer, SubStart;
    var start := SubStart(Shl(1, q), subLen, u);
    SubStartMonotone(Shl(1, q), subLen, u, |heads'|);
    if u == t {
      SubtableOf(lens, q, top, subLen, m, heads, e, t, heads'[t]);
      NeedsSubtable(lens, q, top, subLen, m);
      LongStepSub(lens, q, top, subLen, m, m + 1, e, e', start);
    } else {
      if u < t {
        SubStartMonotone(Shl(1, q), subLen, u, t);
      } else {
        SubStartMonotone(Shl(1, q), subLen, t, u);
      }
      DistinctHeads(lens, q, m + 1, heads', u, t);
      SubUnchanged(lens, q, subLen, m, m + 1, heads'[u], e, e', start);
    }
  }

  lemma NeedsSubtable(lens: Lengths, q: nat, top: nat, subLen: nat, m: nat)
    requires Shape(lens, q, top, subLen) && Long(lens, q, m)
    ensures q < top && subLen == Shl(1, top - q)
  {
    hide Oversubscribed, Shl;
  }

  lemma DistinctHeads(lens: Lengths, q: nat, m: nat, heads: seq<nat>, t: nat, u: nat)
    requires HeadsOf(lens, q, m, heads) && t < |heads| && u < |heads| && t != u
    ensures heads[t] != heads[u]
  {
    hide Shr, Code;
  }

  /** Whether new or not, the subtable of the next long code is filled so far. */
  lemma SubtableOf(lens: Lengths, q: nat, top: nat, subLen: nat, m: nat, heads: seq<nat>, e: seq<nat>, t: nat,
                   head: nat)
    requires Filled(lens, q, subLen, m, heads, e)
    requires (t < |heads| && heads[t] == head) || (t == |heads| && head !in heads)
    requires SubStart(Shl(1, q), subLen, t) + subLen <= |e|
    ensures SubFilled(lens, q, subLen, m, head, e, SubStart(Shl(1, q), subLen, t))
  {
    hide Low, Rev, Shr, Shl, Code, RevCode, Huff, SubFilled, SubStart, MainEntry, Pointer;
    if t == |heads| {
      FreshSub(lens, q, subLen, m, heads, head, e, SubStart(Shl(1, q), subLen, t));
    }
  }

  lemma HeadsGrow(lens: Lengths, q: nat, m: nat, heads: seq<nat>, heads': seq<nat>)
    requires Long(lens, q, m) && HeadsOf(lens, q, m, heads) && Head(lens, q, m) in heads'
    requires heads' == heads || (heads' == heads + [Head(lens, q, m)] && Head(lens, q, m) !in heads)
    ensures HeadsOf(lens, q, m + 1, heads')
  {
    hide Shr, Code;
    forall t: nat | t < |heads'|
      ensures HasHead(lens, q, m + 1, heads'[t])
    {
      if t < |heads| {
        assert HasHead(lens, q, m, heads[t]);
        var sym: nat :| sym < m && Long(lens, q, sym) && Head(lens, q, sym) == heads[t];
      } else {
        assert m < m + 1 && Long(lens, q, m) && Head(lens, q, m) == heads'[t];
      }
    }
  }
}
