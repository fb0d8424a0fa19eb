/** What the tables of sections 3.2.5 and 3.2.7 of RFC 1951 mean: the codes of lengths and of distances
    cover their ranges in order and without gaps, and the code-length codes come in their order. */
module MatchCodes {
  import opened Bits
  import opened Wrappers
  import opened Huffman
  import opened Rfc1951

  // ---------- ranges laid end to end ----------

  /** The first `n` ranges of 2^bits numbers, each from its base on, follow one another up to `end`. */
  predicate Tiles(base: seq<nat>, bits: seq<nat>, n: nat, end: nat) {
    && n <= |base| && n <= |bits|
    && forall k: nat :: k < n ==> TileEnds(base, bits, n, end, k)
  }

  predicate TileEnds(base: seq<nat>, bits: seq<nat>, n: nat, end: nat, k: nat)
    requires k < n <= |base| && n <= |bits|
  {
    base[k] + Shl(1, bits[k]) == if k + 1 < n then base[k + 1] else end
  }

  /** Number `v` is place `extra` of range `k`. */
  predicate InTile(base: seq<nat>, bits: seq<nat>, k: nat, extra: nat, v: nat)
    requires k < |base| && k < |bits|
  {
    extra < Shl(1, bits[k]) && base[k] + extra == v
  }

  lemma {:induction false} TileIncreases(base: seq<nat>, bits: seq<nat>, n: nat, end: nat, j: nat, k: nat)
    requires Tiles(base, bits, n, end) && j < k < n
    ensures base[j] + Shl(1, bits[j]) <= base[k]
    decreases k
  {
    assert TileEnds(base, bits, n, end, k - 1);
    hide Shl;
    if j < k - 1 {
      TileIncreases(base, bits, n, end, j, k - 1);
    }
  }

  lemma TileInside(base: seq<nat>, bits: seq<nat>, n: nat, end: nat, k: nat)
    requires Tiles(base, bits, n, end) && k < n
    ensures base[0] <= base[k] && base[k] + Shl(1, bits[k]) <= end
  {
    assert TileEnds(base, bits, n, end, n - 1);
    if k > 0 {
      TileIncreases(base, bits, n, end, 0, k);
    }
    if k < n - 1 {
      TileIncreases(base, bits, n, end, k, n - 1);
    }
  }

  /** Every number from the first base up to the end is in exactly one range. */
  lemma {:induction false} TileOf(base: seq<nat>, bits: seq<nat>, n: nat, end: nat, v: nat) returns (k: nat, extra: nat)
    requires Tiles(base, bits, n, end) && 0 < n && base[0] <= v < end
    ensures k < n && InTile(base, bits, k, extra, v)
    ensures forall j: nat, e: nat :: j < n && InTile(base, bits, j, e, v) ==> j == k && e == extra
  {
    hide Shl;
    k := n - 1;
    assert TileEnds(base, bits, n, end, n - 1);
    while base[k] > v
      invariant k < n && v < base[k] + Shl(1, bits[k])
    {
      assert TileEnds(base, bits, n, end, k - 1);
      k := k - 1;
    }
    extra := v - base[k];
    forall j: nat, e: nat | j < n && InTile(base, bits, j, e, v)
      ensures j == k && e == extra
    {
      if j < k {
        TileIncreases(base, bits, n, end, j, k);
      } else if k < j {
        TileIncreases(base, bits, n, end, k, j);
      }
    }
  }

  // ---------- lengths ----------

  /** Two to the power of `b`, for at most 13 bits. */
  function SmallPower(b: nat): nat {
    if b == 0 then 1 else if b == 1 then 2 else if b == 2 then 4 else if b == 3 then 8 else if b == 4 then 16
    else if b == 5 then 32 else if b == 6 then 64 else if b == 7 then 128 else if b == 8 then 256
    else if b == 9 then 512 else if b == 10 then 1024 else if b == 11 then 2048 else if b == 12 then 4096 else 8192
  }

  lemma SmallPowers(b: nat)
    requires b <= 13
    ensures Shl(1, b) == SmallPower(b)
  {
    Powers();
    assert Shl(1, 11) == 2 * Shl(1, 10) && Shl(1, 12) == 2 * Shl(1, 11);
    hide Shl;
  }

  /** The extra bits of length code 257 + n: none for the first eight, then one more after every four. */
  function LengthBits(n: nat): nat {
    if n < 8 then 0 else n / 4 - 1
  }

  lemma LengthExtras(n: nat)
    requires n < 28
    ensures |LENGTH_BASE| == |LENGTH_EXTRA| == 29 && LENGTH_EXTRA[n] == LengthBits(n) <= 5
  {}

  lemma LengthBases(n: nat)
    requires n < 27 && |LENGTH_BASE| == 29
    ensures LENGTH_BASE[n + 1] - LENGTH_BASE[n] == SmallPower(LengthBits(n))
  {}

  /** The length codes up to 284 tile the lengths from 3 to 258, and code 285 is 258 alone. */
  lemma LengthsTile(n: nat)
    requires n < 28
    ensures |LENGTH_BASE| == |LENGTH_EXTRA| == 29 && LENGTH_BASE[0] == 3 && LENGTH_EXTRA[n] == LengthBits(n)
    ensures LENGTH_BASE[n] + Shl(1, LENGTH_EXTRA[n]) == if n < 27 then LENGTH_BASE[n + 1] else 258 + 1
    ensures LENGTH_BASE[28] == 258 && LENGTH_EXTRA[28] == 0
  {
    LengthExtras(n);
    SmallPowers(LengthBits(n));
    assert LENGTH_BASE[0] == 3 && LENGTH_BASE[27] == 227 && LENGTH_BASE[28] == 258 && LENGTH_EXTRA[28] == 0;
    hide Shl, LENGTH_BASE, LENGTH_EXTRA;
    if n < 27 {
      LengthBases(n);
    }
  }

  lemma LengthTiles()
    ensures Tiles(LENGTH_BASE, LENGTH_EXTRA, 28, 258 + 1) && LENGTH_BASE[0] == 3
  {
    LengthsTile(0);
    hide Shl, LENGTH_BASE, LENGTH_EXTRA;
    var base, bits, end := LENGTH_BASE, LENGTH_EXTRA, 258 + 1;
    forall k: nat | k < 28
      ensures TileEnds(base, bits, 28, end, k)
    {
      LengthsTile(k);
    }
  }

  /** Every length from 3 to 258 has exactly one code from 257 to 284 with extra bits. */
  lemma LengthCode(length: nat) returns (n: nat, extra: nat)
    requires 3 <= length <= 258
    ensures |LENGTH_BASE| == |LENGTH_EXTRA| == 29 && n < 28 && InTile(LENGTH_BASE, LENGTH_EXTRA, n, extra, length)
    ensures forall j: nat, e: nat ::
              j < 28 && InTile(LENGTH_BASE, LENGTH_EXTRA, j, e, length) ==> j == n && e == extra
  {
    LengthsTile(0);
    LengthTiles();
    hide LENGTH_BASE, LENGTH_EXTRA, Tiles, InTile;
    n, extra := TileOf(LENGTH_BASE, LENGTH_EXTRA, 28, 258 + 1, length);
  }

  /** No length below 3 or above 258 is ever read. */
  lemma LengthInRange(data: seq<Byte>, pos: nat, sym: nat)
    requires END_OF_BLOCK < sym <= MAX_LENGTH_CODE
    ensures ReadLength(data, pos, sym).Some? ==> 3 <= ReadLength(data, pos, sym).value.0 <= 258
  {
    var n := sym - END_OF_BLOCK - 1;
    LengthsTile(0);
    LengthTiles();
    hide LENGTH_BASE, LENGTH_EXTRA, Tiles;
    if n < 28 {
      TileInside(LENGTH_BASE, LENGTH_EXTRA, 28, 258 + 1, n);
      hide Shl, Window;
    } else {
      assert Shl(1, 0) == 1;
      hide Shl, Window;
    }
  }

  // ---------- distances ----------

  /** The extra bits of distance code `n`: none for the first four, then one more after every two. */
  function DistanceBits(n: nat): nat {
    if n < 4 then 0 else n / 2 - 1
  }

  lemma DistanceExtras(n: nat)
    requires n < 30
    ensures |DIST_BASE| == |DIST_EXTRA| == 30 && DIST_EXTRA[n] == DistanceBits(n) <= 13
  {}

  lemma DistanceBases(n: nat)
    requires n < 29 && |DIST_BASE| == 30
    ensures DIST_BASE[n + 1] - DIST_BASE[n] == SmallPower(DistanceBits(n))
  {}

  /** The distance codes tile the distances from 1 to 32768. */
  lemma DistancesTile(n: nat)
    requires n < 30
    ensures |DIST_BASE| == |DIST_EXTRA| == 30 && DIST_BASE[0] == 1 && DIST_EXTRA[n] == DistanceBits(n)
    ensures DIST_BASE[n] + Shl(1, DIST_EXTRA[n]) == if n < 29 then DIST_BASE[n + 1] else 32768 + 1
  {
    DistanceExtras(n);
    SmallPowers(DistanceBits(n));
    assert DIST_BASE[0] == 1 && DIST_BASE[29] == 24577;
    hide Shl, DIST_BASE, DIST_EXTRA;
    if n < 29 {
      DistanceBases(n);
    }
  }

  lemma DistanceTiles()
    ensures Tiles(DIST_BASE, DIST_EXTRA, 30, 32768 + 1) && DIST_BASE[0] == 1
  {
    DistancesTile(0);
    hide Shl, DIST_BASE, DIST_EXTRA;
    var base, bits, end := DIST_BASE, DIST_EXTRA, 32768 + 1;
    forall k: nat | k < 30
      ensures TileEnds(base, bits, 30, end, k)
    {
      DistancesTile(k);
    }
  }

  /** Every distance from 1 to 32768 has exactly one code with extra bits. */
  lemma DistanceCode(distance: nat) returns (n: nat, extra: nat)
    requires 1 <= distance <= 32768
    ensures |DIST_BASE| == |DIST_EXTRA| == 30 && n < 30 && InTile(DIST_BASE, DIST_EXTRA, n, extra, distance)
    ensures forall j: nat, e: nat ::
              j < 30 && InTile(DIST_BASE, DIST_EXTRA, j, e, distance) ==> j == n && e == extra
  {
    DistancesTile(0);
    DistanceTiles();
    hide DIST_BASE, DIST_EXTRA, Tiles, InTile;
    n, extra := TileOf(DIST_BASE, DIST_EXTRA, 30, 32768 + 1, distance);
  }

  /** No distance above 32768 is ever read. */
  lemma DistanceInRange(dist: Lengths, data: seq<Byte>, pos: nat)
    ensures var r := ReadDistance(dist, data, pos); r.Some? ==> 1 <= r.value.0 <= 32768
  {
    hide Decode, DIST_BASE, DIST_EXTRA, Shl, Window, Tiles;
    var d := Decode(dist, data, pos);
    if d.Some? && d.value.0 <= MAX_DISTANCE_CODE {
      DistancesTile(d.value.0);
      DistanceTiles();
      TileInside(DIST_BASE, DIST_EXTRA, 30, 32768 + 1, d.value.0);
    }
  }

  // ---------- the order of code-length codes ----------

  /** First the codes for runs and zero, then 8 and its neighbours in turn, upward and downward. */
  function OrderedCode(i: nat): nat
    requires i < 19
  {
    if i < 3 then 16 + i else if i == 3 then 0 else if i % 2 == 0 then 6 + i / 2 else 9 - i / 2
  }

  lemma OrderIs(i: nat)
    requires i < 19
    ensures |CODE_LENGTH_ORDER| == 19 && CODE_LENGTH_ORDER[i] == OrderedCode(i) < 19
  {}

  lemma OrderDistinct(i: nat, j: nat)
    requires i < 19 && j < 19 && OrderedCode(i) == OrderedCode(j)
    ensures i == j
  {}

  /** One code length of a header. */
  lemma HeaderStep(data: seq<Byte>, pos: nat, n: nat, i: nat, lens: seq<nat>)
    requires i < n <= 19 == |lens| && (forall q :: 0 <= q < 19 ==> lens[q] <= 7) && Window(data, pos, 3) <= 7
    ensures CodeLengthLengths(data, pos, n, i, lens) ==
            if pos + 3 > 8 * |data| then None
            else CodeLengthLengths(data, pos + 3, n, i + 1, lens[OrderedCode(i) := Window(data, pos, 3)])
  {
    OrderIs(i);
    hide Window, CODE_LENGTH_ORDER, Shl;
  }

  lemma SmallWindow(data: seq<Byte>, pos: nat)
    ensures Window(data, pos, 3) <= 7
  {
    Powers();
    hide Window;
  }

  /** The `i`-th three bits of a header are the length of the `i`-th code in that order. */
  lemma {:induction false} HeaderOrder(data: seq<Byte>, pos: nat, n: nat, i: nat, lens: seq<nat>, k: nat)
    requires i <= n <= 19 == |lens| && (forall q :: 0 <= q < 19 ==> lens[q] <= 7) && k < 19
    ensures var r := CodeLengthLengths(data, pos, n, i, lens);
            && (r.Some? <==> pos + 3 * (n - i) <= 8 * |data| || n == i)
            && (r.Some? ==> r.value.0[OrderedCode(k)] ==
                            if i <= k < n then Window(data, pos + 3 * (k - i), 3) else lens[OrderedCode(k)])
    decreases n - i
  {
    hide Window, CODE_LENGTH_ORDER;
    if i < n {
      SmallWindow(data, pos);
      HeaderStep(data, pos, n, i, lens);
      var a, c := OrderedCode(i), OrderedCode(k);
      assert a < 19 && c < 19 && (a == c <==> i == k) by {
        OrderIs(i);
        OrderIs(k);
        if a == c {
          OrderDistinct(i, k);
        }
      }
      hide OrderedCode;
      if pos + 3 <= 8 * |data| {
        var more := lens[a := Window(data, pos, 3)];
        HeaderOrder(data, pos + 3, n, i + 1, more, k);
        assert pos + 3 + 3 * (k - (i + 1)) == pos + 3 * (k - i);
        assert more[c] == if i == k then Window(data, pos, 3) else lens[c];
      }
    }
  }
}
