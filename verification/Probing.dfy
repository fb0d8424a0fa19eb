/** Double hashing in one bucket of the string table. */
module Probing {
  import opened Wrappers

  datatype Slot = Empty | Used(str: Str, hashBits: nat)

  const HTSIZE: nat := 2003
  const OVERFLOW_POINT: nat := 1602

  /** The hash of a string, in 32 bits. */
  function RawHash(s: Str): (h: nat)
    ensures h < 0x1_0000_0000
  {
    if s == [] then 0 else (RawHash(s[..|s| - 1]) * 37 + s[|s| - 1]) % 0x1_0000_0000
  }

  function Secondary(s: Str): (d: nat)
    ensures 1 <= d <= 8
  {
    RawHash(s) % 8 + 1
  }

  function HashBits(s: Str): nat {
    RawHash(s) % 0x8000_0000
  }

  /** The slot that is tried after slot `i`. */
  function Next(i: nat, d: nat): (r: nat)
    requires i < HTSIZE && 1 <= d <= 8
    ensures r < HTSIZE
  {
    if i < d then i - d + HTSIZE else i - d
  }

  /** The `j`-th slot that is tried from slot `p` on. */
  function Probe(p: nat, d: nat, j: nat): (r: nat)
    requires p < HTSIZE && 1 <= d <= 8
    ensures r < HTSIZE
  {
    if j == 0 then p else Next(Probe(p, d, j - 1), d)
  }

  // ---------- every slot is tried ----------

  /** Probing has gone `turns` times round the bucket. */
  lemma {:induction false} ProbeIs(p: nat, d: nat, j: nat) returns (turns: nat)
    requires p < HTSIZE && 1 <= d <= 8
    ensures Probe(p, d, j) == p - j * d + turns * HTSIZE
  {
    if j == 0 {
      turns := 0;
    } else {
      turns := ProbeIs(p, d, j - 1);
      assert j * d == (j - 1) * d + d;
      if Probe(p, d, j - 1) < d {
        turns := turns + 1;
      }
    }
  }

  /** The inverse of a step, since the size is prime. */
  function Inverse(d: nat): nat
    requires 1 <= d <= 8
  {
    [0, 1, 1002, 668, 501, 1202, 334, 1717, 1252][d]
  }

  lemma InverseIs(d: nat)
    requires 1 <= d <= 8
    ensures d * Inverse(d) % HTSIZE == 1
  {}

  /** Some number of steps, less than the size, leads to any slot. */
  lemma StepsTo(p: nat, d: nat, e: nat) returns (j: nat)
    requires p < HTSIZE && e < HTSIZE && 1 <= d <= 8
    ensures j < HTSIZE && Probe(p, d, j) == e
  {
    j := (p - e) * Inverse(d) % HTSIZE;
    var q := (p - e) * Inverse(d) / HTSIZE;
    var turns := ProbeIs(p, d, j);
    assert (p - e) * Inverse(d) == q * HTSIZE + j;
    var c := d * Inverse(d) / HTSIZE;
    InverseIs(d);
    assert d * Inverse(d) == c * HTSIZE + 1;
    Cancel(p - e, d, Inverse(d), q, j, c);
    assert Probe(p, d, j) == e + (turns - ((p - e) * c - q * d)) * HTSIZE;
  }

  lemma Cancel(x: int, d: nat, inv: nat, q: int, j: nat, c: nat)
    requires x * inv == q * HTSIZE + j && d * inv == c * HTSIZE + 1
    ensures j * d == x + (x * c - q * d) * HTSIZE
  {
    assert x * inv * d == x * (d * inv);
    assert x * (c * HTSIZE + 1) == x * c * HTSIZE + x;
    assert (q * HTSIZE + j) * d == q * d * HTSIZE + j * d;
  }
}
