/** States have finite height: a weight that drops whenever a merge changes a visited state. */
module StateRank {
  import opened ClassTree
  import opened TypeMerge
  import opened TypeRank
  import opened MergeStates
  import opened Sets

  function RankSum(depth: nat, s: seq<FullInfo>): nat {
    if s == [] then 0 else RankSum(depth, s[..|s| - 1]) + Rank(depth, s[|s| - 1])
  }

  lemma {:induction false} RankSumUp(obj: ClassClass, depth: nat, s: seq<FullInfo>, t: seq<FullInfo>)
    requires KnownObject(obj) && AllKnown(obj, depth, s) && AllKnown(obj, depth, t)
    requires |t| <= |s| && AllLeq(obj, s, t)
    ensures RankSum(depth, t) + |t| <= RankSum(depth, s) + |s|
    ensures t != s ==> RankSum(depth, t) + |t| < RankSum(depth, s) + |s|
    decreases |s|
  {
    hide Known, KnownObject, Leq, Rank;
    if s != [] {
      var k := |s| - 1;
      if |t| == |s| {
        RankSumUp(obj, depth, s[..k], t[..k]);
        if s[k] != t[k] {
          RankDecreases(obj, depth, s[k], t[k]);
        }
        assert s == s[..k] + [s[k]] && t == t[..k] + [t[k]];
      } else {
        RankSumUp(obj, depth, s[..k], t);
      }
    }
  }

  // ---------- sets of bits ----------

  predicate Below(b: nat, n: nat) {
    b < n
  }

  function Bits(n: nat): set<nat> {
    set b: nat | b < n && Below(b, n)
  }

  // ---------- masks ----------

  function MaskWeight(masks: seq<Mask>): nat {
    if masks == [] then 0 else 1 + |Bits(MASK_BITS) - masks[0].changed| + MaskWeight(masks[1..])
  }

  lemma {:induction false} MaskWeightUp(r: seq<Mask>, s: seq<Mask>)
    requires MasksKnown(r) && MasksKnown(s) && Embeds(r, s)
    ensures MaskWeight(r) <= MaskWeight(s)
    ensures r != s ==> MaskWeight(r) < MaskWeight(s)
    decreases |s|
  {
    hide Bits;
    if r == [] {
      assert r != s ==> s != [];
    } else if r[0].entry == s[0].entry && s[0].changed <= r[0].changed && Embeds(r[1..], s[1..]) {
      MaskWeightUp(r[1..], s[1..]);
      MaskInBits(r[0]);
      FewerLeft(Bits(MASK_BITS), s[0].changed, r[0].changed);
      assert r == [r[0]] + r[1..] && s == [s[0]] + s[1..];
    } else {
      MaskWeightUp(r, s[1..]);
    }
  }

  lemma MaskInBits(m: Mask)
    requires MaskKnown(m)
    ensures m.changed <= Bits(MASK_BITS)
  {}

  // ---------- states ----------

  function Weight(depth: nat, s: State): nat
    requires s.Visited()
  {
    RankSum(depth, s.stack.items) + RankSum(depth, s.regs.registers) + |s.regs.registers|
    + MaskWeight(s.regs.masks) + |s.andFlags| + |Bits(FLAG_BITS) - s.orFlags|
  }

  /** Every change to a visited state makes it lighter. */
  lemma WeightUp(obj: ClassClass, depth: nat, s: State, t: State)
    requires KnownObject(obj) && StateKnown(obj, depth, s) && StateKnown(obj, depth, t)
    requires s.Visited() && Above(obj, s, t)
    ensures t.Visited() && Weight(depth, t) <= Weight(depth, s)
    ensures t != s ==> Weight(depth, t) < Weight(depth, s)
  {
    hide AllKnown, AllLeq, Embeds, MasksKnown, RankSum, MaskWeight, Bits, KnownObject;
    RankSumUp(obj, depth, s.stack.items, t.stack.items);
    RankSumUp(obj, depth, s.regs.registers, t.regs.registers);
    MaskWeightUp(t.regs.masks, s.regs.masks);
    SubsetSize(t.andFlags, s.andFlags);
    FlagsInBits(t.orFlags);
    FewerLeft(Bits(FLAG_BITS), s.orFlags, t.orFlags);
  }

  lemma FlagsInBits(flags: set<nat>)
    requires FlagsKnown(flags)
    ensures flags <= Bits(FLAG_BITS)
  {}
}
