/** Canonical Huffman codes as RFC 1951 section 3.2.2 defines them from code lengths alone,
    and decoding one bit at a time. */
module Huffman {
  import opened Bits
  import opened Wrappers

  const MAX_BITS: nat := 15

  type Lengths = lens: seq<nat> | forall i :: 0 <= i < |lens| ==> lens[i] <= MAX_BITS witness []

  /** How many of the first `n` symbols have codes of `b` bits. */
  function Count(lens: Lengths, b: nat, n: nat): (c: nat)
    requires n <= |lens|
    ensures c <= n
  {
    if n == 0 then 0 else Count(lens, b, n - 1) + if lens[n - 1] == b then 1 else 0
  }

  function LengthCount(lens: Lengths, b: nat): nat {
    Count(lens, b, |lens|)
  }

  /** The smallest code of `b` bits: RFC 1951 section 3.2.2, step 2. */
  function NextCode(lens: Lengths, b: nat): nat {
    if b <= 1 then 0 else 2 * (NextCode(lens, b - 1) + LengthCount(lens, b - 1))
  }

  /** The code of a symbol: RFC 1951 section 3.2.2, step 3. */
  function Code(lens: Lengths, sym: nat): nat
    requires sym < |lens|
  {
    NextCode(lens, lens[sym]) + Count(lens, lens[sym], sym)
  }

  /** Codes of `b` bits or fewer take this much of the space of MAX_BITS-bit codes. */
  function Used(lens: Lengths, b: nat): nat
    requires b <= MAX_BITS
  {
    if b == 0 then 0 else Used(lens, b - 1) + Shl(LengthCount(lens, b), MAX_BITS - b)
  }

  predicate Oversubscribed(lens: Lengths) {
    Used(lens, MAX_BITS) > Shl(1, MAX_BITS)
  }

  predicate AllZero(lens: Lengths) {
    forall i :: 0 <= i < |lens| ==> lens[i] == 0
  }

  ghost predicate HasCode(lens: Lengths, sym: nat, n: nat, v: nat) {
    sym < |lens| && lens[sym] == n && n >= 1 && Code(lens, sym) == v
  }

  /** Reads bits from `pos` on until, after at most MAX_BITS of them, they form a code.
      The first `n` bits have been read already and have value `v`. */
  ghost function DecodeFrom(lens: Lengths, s: seq<Byte>, pos: nat, n: nat, v: nat): (r: Option<(nat, nat)>)
    requires n <= MAX_BITS && (n > 0 ==> pos + n <= 8 * |s|)
    ensures r.Some? ==> r.value.0 < |lens| && pos < r.value.1 <= 8 * |s|
    decreases MAX_BITS - n
  {
    if exists sym :: HasCode(lens, sym, n, v) then
      var sym :| HasCode(lens, sym, n, v);
      Some((sym, pos + n))
    else if n == MAX_BITS || pos + n >= 8 * |s| then
      None
    else
      DecodeFrom(lens, s, pos, n + 1, 2 * v + Bit(s, pos + n))
  }

  /** The symbol whose code starts at bit `pos`, and the position after it. */
  ghost function Decode(lens: Lengths, s: seq<Byte>, pos: nat): (r: Option<(nat, nat)>)
    ensures r.Some? ==> r.value.0 < |lens| && pos < r.value.1 <= 8 * |s|
  {
    DecodeFrom(lens, s, pos, 0, 0)
  }

  // ---------- the order of codes: the two rules of RFC 1951 section 3.2.2 ----------

  lemma {:induction false} CountSame(lens: Lengths, b: nat, m: nat, n: nat)
    requires m <= n <= |lens| && forall k :: m <= k < n ==> lens[k] != b
    ensures Count(lens, b, n) == Count(lens, b, m)
    decreases n
  {
    if m < n {
      CountSame(lens, b, m, n - 1);
    }
  }

  /** Codes of one length are consecutive numbers, in the order of their symbols. */
  lemma CodesConsecutive(lens: Lengths, i: nat, j: nat)
    requires i < j < |lens| && lens[i] == lens[j] && forall k :: i < k < j ==> lens[k] != lens[i]
    ensures Code(lens, j) == Code(lens, i) + 1
  {
    CountSame(lens, lens[i], i + 1, j);
  }

  lemma {:induction false} NextCodeSkips(lens: Lengths, b: nat, c: nat)
    requires 1 <= b < c && forall k :: 0 <= k < |lens| ==> !(b < lens[k] < c)
    ensures NextCode(lens, c) == Shl(NextCode(lens, b) + LengthCount(lens, b), c - b)
  {
    if b + 1 < c {
      NextCodeSkips(lens, b, c - 1);
      CountSame(lens, c - 1, 0, |lens|);
    } else {
      assert Shl(NextCode(lens, b) + LengthCount(lens, b), 1) == 2 * Shl(NextCode(lens, b) + LengthCount(lens, b), 0);
    }
  }

  /** The first code of a length is the number after the last code of the next shorter length in use, with
      zeros appended. */
  lemma LongerCodesFollow(lens: Lengths, i: nat, j: nat)
    requires i < |lens| && j < |lens| && 1 <= lens[i] < lens[j]
    requires forall k :: 0 <= k < |lens| ==> !(lens[i] < lens[k] < lens[j])
    requires forall k :: i < k < |lens| ==> lens[k] != lens[i]
    requires forall k :: 0 <= k < j ==> lens[k] != lens[j]
    ensures Code(lens, j) == Shl(Code(lens, i) + 1, lens[j] - lens[i])
  {
    NextCodeSkips(lens, lens[i], lens[j]);
    CountSame(lens, lens[i], i + 1, |lens|);
    CountSame(lens, lens[j], 0, j);
    hide NextCode, Shl;
  }

  lemma {:induction false} NextCodeZero(lens: Lengths, b: nat)
    requires forall k :: 0 <= k < |lens| ==> lens[k] == 0 || lens[k] >= b
    ensures NextCode(lens, b) == 0
  {
    if b > 1 {
      NextCodeZero(lens, b - 1);
      CountSame(lens, b - 1, 0, |lens|);
    }
  }

  /** The first of the shortest codes is zero. */
  lemma ShortestCode(lens: Lengths, i: nat)
    requires i < |lens| && lens[i] >= 1
    requires forall k :: 0 <= k < |lens| ==> lens[k] == 0 || lens[k] >= lens[i]
    requires forall k :: 0 <= k < i ==> lens[k] != lens[i]
    ensures Code(lens, i) == 0
  {
    NextCodeZero(lens, lens[i]);
    CountSame(lens, lens[i], 0, i);
  }

  // ---------- code space ----------

  lemma {:induction false} CountMonotone(lens: Lengths, b: nat, m: nat, n: nat)
    requires m <= n <= |lens|
    ensures Count(lens, b, m) <= Count(lens, b, n)
    decreases n - m
  {
    if m < n {
      CountMonotone(lens, b, m + 1, n);
    }
  }

  /** Left-justified, the first code of `b` bits starts where the shorter codes end. */
  lemma {:induction false} NextCodeIsUsed(lens: Lengths, b: nat)
    requires 1 <= b <= MAX_BITS
    ensures Shl(NextCode(lens, b), MAX_BITS - b) == Used(lens, b - 1)
  {
    if b == 1 {
      ShlZero(MAX_BITS - b);
    } else {
      NextCodeIsUsed(lens, b - 1);
      ShlDouble(NextCode(lens, b - 1) + LengthCount(lens, b - 1), MAX_BITS - b);
      ShlAdd(NextCode(lens, b - 1), LengthCount(lens, b - 1), MAX_BITS - b + 1);
    }
  }

  lemma {:induction false} UsedMonotone(lens: Lengths, b: nat, c: nat)
    requires b <= c <= MAX_BITS
    ensures Used(lens, b) <= Used(lens, c)
    decreases c - b
  {
    if b < c {
      UsedMonotone(lens, b + 1, c);
    }
  }

  /** Left-justified, a symbol's code starts after the codes of its length for earlier symbols ... */
  lemma CodeStart(lens: Lengths, sym: nat)
    requires sym < |lens| && lens[sym] >= 1
    ensures Shl(Code(lens, sym), MAX_BITS - lens[sym])
         == Used(lens, lens[sym] - 1) + Shl(Count(lens, lens[sym], sym), MAX_BITS - lens[sym])
  {
    hide NextCode, Count, Shl, Used;
    var b := lens[sym];
    NextCodeIsUsed(lens, b);
    ShlAdd(NextCode(lens, b), Count(lens, b, sym), MAX_BITS - b);
  }

  /** ... and ends within the space of the codes of its length. */
  lemma CodeEnd(lens: Lengths, sym: nat)
    requires sym < |lens| && lens[sym] >= 1
    ensures Shl(Code(lens, sym) + 1, MAX_BITS - lens[sym]) <= Used(lens, lens[sym])
  {
    var b, c := lens[sym], Count(lens, lens[sym], sym);
    CodeStart(lens, sym);
    ShlAdd(Code(lens, sym), 1, MAX_BITS - b);
    ShlAdd(c, 1, MAX_BITS - b);
    CountMonotone(lens, b, sym + 1, |lens|);
    ShlMonotone(c + 1, LengthCount(lens, b), MAX_BITS - b);
  }

  /** If lengths are not over-subscribed, every code fits in its own number of bits. */
  lemma CodeFits(lens: Lengths, sym: nat)
    requires !Oversubscribed(lens) && sym < |lens| && lens[sym] >= 1
    ensures Code(lens, sym) < Shl(1, lens[sym])
  {
    hide Shl, Used, Code;
    CodeEnd(lens, sym);
    UsedMonotone(lens, lens[sym], MAX_BITS);
    ShlBelow(Code(lens, sym), lens[sym], MAX_BITS - lens[sym]);
  }

  lemma ShlBelow(v: nat, b: nat, k: nat)
    requires Shl(v + 1, k) <= Shl(1, b + k)
    ensures v < Shl(1, b)
  {
    ShlTwice(1, b, k);
    ShlAdd(v, 1, k);
    if v >= Shl(1, b) {
      ShlMonotone(Shl(1, b), v, k);
    }
  }

  // ---------- codes are prefix-free ----------

  /** `w`, read least significant bit first, starts with the code of `sym`. */
  predicate Matches(lens: Lengths, sym: nat, w: nat) {
    sym < |lens| && lens[sym] >= 1 && Low(w, lens[sym]) == Rev(Code(lens, sym), lens[sym])
  }

  lemma {:induction false} NextCodeGrows(lens: Lengths, b: nat, c: nat)
    requires 1 <= b < c
    ensures Shl(NextCode(lens, b) + LengthCount(lens, b), c - b) <= NextCode(lens, c)
    decreases c
  {
    if b + 1 < c {
      NextCodeGrows(lens, b, c - 1);
    } else {
      assert Shl(NextCode(lens, b) + LengthCount(lens, b), 1) == 2 * Shl(NextCode(lens, b) + LengthCount(lens, b), 0);
    }
  }

  lemma {:induction false} SameRank(lens: Lengths, s1: nat, s2: nat)
    requires s1 < |lens| && s2 < |lens| && lens[s1] == lens[s2]
    requires Count(lens, lens[s1], s1) == Count(lens, lens[s2], s2)
    ensures s1 == s2
  {
    if s1 < s2 {
      CountMonotone(lens, lens[s1], s1 + 1, s2);
    } else if s2 < s1 {
      CountMonotone(lens, lens[s1], s2 + 1, s1);
    }
  }

  /** No two symbols match the same bits. */
  lemma MatchUnique(lens: Lengths, s1: nat, s2: nat, w: nat)
    requires !Oversubscribed(lens) && Matches(lens, s1, w) && Matches(lens, s2, w)
    ensures s1 == s2
  {
    if lens[s1] <= lens[s2] {
      MatchUniqueOrdered(lens, s1, s2, w);
    } else {
      MatchUniqueOrdered(lens, s2, s1, w);
    }
  }

  lemma MatchUniqueOrdered(lens: Lengths, s1: nat, s2: nat, w: nat)
    requires !Oversubscribed(lens) && Matches(lens, s1, w) && Matches(lens, s2, w)
    requires lens[s1] <= lens[s2]
    ensures s1 == s2
  {
    var k := lens[s2] - lens[s1];
    MatchIsPrefix(lens, s1, s2, w);
    if k == 0 {
      SameRank(lens, s1, s2);
    } else {
      LongerCodeIsLarger(lens, s1, s2);
    }
  }

  /** Of two codes that match the same bits, the shorter is a prefix of the longer. */
  lemma MatchIsPrefix(lens: Lengths, s1: nat, s2: nat, w: nat)
    requires !Oversubscribed(lens) && Matches(lens, s1, w) && Matches(lens, s2, w)
    requires lens[s1] <= lens[s2]
    ensures Code(lens, s1) == Shr(Code(lens, s2), lens[s2] - lens[s1])
  {
    hide Rev, Low, Shr, Shl, Code, Used, Oversubscribed;
    var b, k := lens[s1], lens[s2] - lens[s1];
    LowOfLow(w, b, k);
    RevLow(Code(lens, s2), k, b);
    CodeFits(lens, s1);
    CodeFits(lens, s2);
    ShlTwice(1, b, k);
    ShrUpper(Code(lens, s2), Shl(1, b), k);
    RevInjective(Code(lens, s1), Shr(Code(lens, s2), k), b);
  }

  /** No prefix of a longer code is a shorter code. */
  lemma LongerCodeIsLarger(lens: Lengths, s1: nat, s2: nat)
    requires s1 < |lens| && s2 < |lens| && 1 <= lens[s1] < lens[s2]
    ensures Code(lens, s1) < Shr(Code(lens, s2), lens[s2] - lens[s1])
  {
    var b, c := lens[s1], lens[s2];
    var last := NextCode(lens, b) + LengthCount(lens, b);
    NextCodeGrows(lens, b, c);
    CountMonotone(lens, b, s1 + 1, |lens|);
    ShrMonotone(Shl(last, c - b), Code(lens, s2), c - b);
    HighLowUnique(last, 0, c - b);
  }

  // ---------- decoding one bit at a time finds the match ----------

  lemma MatchIsCode(lens: Lengths, s: seq<Byte>, pos: nat, sym: nat)
    requires !Oversubscribed(lens) && sym < |lens| && lens[sym] >= 1
    ensures Matches(lens, sym, Window(s, pos, MAX_BITS)) <==> Msb(s, pos, lens[sym]) == Code(lens, sym)
  {
    hide Rev, Low, Window, Msb, Code, Shl, Oversubscribed;
    var n := lens[sym];
    WindowPeekDrop(s, pos, n, MAX_BITS);
    WindowIsRevMsb(s, pos, n);
    CodeFits(lens, sym);
    if Rev(Msb(s, pos, n), n) == Rev(Code(lens, sym), n) {
      RevInjective(Msb(s, pos, n), Code(lens, sym), n);
    }
  }

  /** What decoding returns: the matching symbol, unless its code runs past the end of the data. */
  ghost predicate DecodesTo(lens: Lengths, s: seq<Byte>, pos: nat, r: Option<(nat, nat)>) {
    var w := Window(s, pos, MAX_BITS);
    match r
    case Some((sym, p)) => Matches(lens, sym, w) && p == pos + lens[sym] && p <= 8 * |s|
    case None => forall sym: nat :: Matches(lens, sym, w) ==> pos + lens[sym] > 8 * |s|
  }

  lemma {:induction false} DecodeFromFindsMatch(lens: Lengths, s: seq<Byte>, pos: nat, n: nat)
    requires !Oversubscribed(lens) && n <= MAX_BITS && (n > 0 ==> pos + n <= 8 * |s|)
    requires forall sym: nat :: Matches(lens, sym, Window(s, pos, MAX_BITS)) ==> lens[sym] >= n
    ensures DecodesTo(lens, s, pos, DecodeFrom(lens, s, pos, n, Msb(s, pos, n)))
    decreases MAX_BITS - n
  {
    hide Window, Code, Oversubscribed, Matches, DecodeFrom, Msb, Bit, HasCode;
    var v := Msb(s, pos, n);
    if exists sym :: HasCode(lens, sym, n, v) {
      var sym := DecodeFromHit(lens, s, pos, n, v);
      HitDecodes(lens, s, pos, n, sym);
    } else {
      NoShortMatch(lens, s, pos, n);
      DecodeFromMiss(lens, s, pos, n, v);
      if n < MAX_BITS && pos + n < 8 * |s| {
        DecodeFromFindsMatch(lens, s, pos, n + 1);
        MsbStep(s, pos, n);
      }
    }
  }

  lemma HitDecodes(lens: Lengths, s: seq<Byte>, pos: nat, n: nat, sym: nat)
    requires !Oversubscribed(lens) && (n > 0 ==> pos + n <= 8 * |s|) && HasCode(lens, sym, n, Msb(s, pos, n))
    ensures DecodesTo(lens, s, pos, Some((sym, pos + n)))
  {
    hide Window, Code, Oversubscribed, Msb, Matches;
    MatchIsCode(lens, s, pos, sym);
  }

  lemma MsbStep(s: seq<Byte>, pos: nat, n: nat)
    ensures Msb(s, pos, n + 1) == 2 * Msb(s, pos, n) + Bit(s, pos + n)
  {}

  lemma DecodeFromHit(lens: Lengths, s: seq<Byte>, pos: nat, n: nat, v: nat) returns (sym: nat)
    requires n <= MAX_BITS && (n > 0 ==> pos + n <= 8 * |s|) && exists sym :: HasCode(lens, sym, n, v)
    ensures HasCode(lens, sym, n, v) && DecodeFrom(lens, s, pos, n, v) == Some((sym, pos + n))
  {
    sym := DecodeFrom(lens, s, pos, n, v).value.0;
  }

  lemma DecodeFromMiss(lens: Lengths, s: seq<Byte>, pos: nat, n: nat, v: nat)
    requires n <= MAX_BITS && (n > 0 ==> pos + n <= 8 * |s|) && !exists sym :: HasCode(lens, sym, n, v)
    ensures DecodeFrom(lens, s, pos, n, v) ==
            if n == MAX_BITS || pos + n >= 8 * |s| then None
            else DecodeFrom(lens, s, pos, n + 1, 2 * v + Bit(s, pos + n))
  {}

  lemma NoShortMatch(lens: Lengths, s: seq<Byte>, pos: nat, n: nat)
    requires !Oversubscribed(lens) && n <= MAX_BITS
    requires forall sym: nat :: Matches(lens, sym, Window(s, pos, MAX_BITS)) ==> lens[sym] >= n
    requires !exists sym :: HasCode(lens, sym, n, Msb(s, pos, n))
    ensures forall sym: nat :: Matches(lens, sym, Window(s, pos, MAX_BITS)) ==> lens[sym] >= n + 1
    ensures n == MAX_BITS ==> forall sym: nat :: !Matches(lens, sym, Window(s, pos, MAX_BITS))
  {
    hide Window, Code, Oversubscribed, Msb, Low, Rev;
    forall sym: nat | Matches(lens, sym, Window(s, pos, MAX_BITS))
      ensures lens[sym] >= n + 1
    {
      MatchIsCode(lens, s, pos, sym);
      assert lens[sym] == n ==> HasCode(lens, sym, n, Msb(s, pos, n));
    }
  }

  lemma DecodeFindsMatch(lens: Lengths, s: seq<Byte>, pos: nat)
    requires !Oversubscribed(lens)
    ensures DecodesTo(lens, s, pos, Decode(lens, s, pos))
  {
    DecodeFromFindsMatch(lens, s, pos, 0);
  }

  /** Nothing can be decoded at or after the end of the data. */
  lemma DecodePastEnd(lens: Lengths, s: seq<Byte>, pos: nat)
    requires pos >= 8 * |s|
    ensures Decode(lens, s, pos) == None
  {
    assert forall sym :: !HasCode(lens, sym, 0, 0);
  }
}
