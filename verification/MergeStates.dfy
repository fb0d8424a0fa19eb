/** The abstract state before an instruction, and merging another state into it. */
module MergeStates {
  import opened ClassTree
  import opened TypeMerge
  import opened TypeRank

  datatype StackInfo = UnknownStack | Stack(size: nat, items: seq<FullInfo>)

  /** The subroutines an instruction is in, and the registers each may have modified. */
  datatype Mask = Mask(entry: nat, changed: set<nat>)
  datatype RegisterInfo = UnknownRegisters | Registers(registers: seq<FullInfo>, masks: seq<Mask>)

  const FLAG_BITS: nat := 16
  const MASK_BITS: nat := 0x10000

  datatype State = State(stack: StackInfo, regs: RegisterInfo, andFlags: set<nat>, orFlags: set<nat>) {
    predicate Visited() {
      stack.Stack? && regs.Registers?
    }
  }

  // ---------- stacks ----------

  function MergedItems(obj: ClassClass, cur: seq<FullInfo>, inc: seq<FullInfo>): (r: seq<FullInfo>)
    requires |cur| == |inc|
    ensures |r| == |cur|
  {
    seq(|cur|, (i: nat) requires i < |cur| => Merge(obj, cur[i], inc[i], false))
  }

  predicate AllAssignable(obj: ClassClass, from: seq<FullInfo>, to: seq<FullInfo>)
    requires |to| <= |from|
  {
    forall i :: 0 <= i < |to| ==> AssignableTo(obj, from[i], to[i])
  }

  /** Stacks of one size have as many items. */
  predicate SameHeight(cur: StackInfo, inc: StackInfo) {
    cur.Stack? && inc.Stack? && cur.size == inc.size ==> |cur.items| == |inc.items|
  }

  function MergedStack(obj: ClassClass, cur: StackInfo, inc: StackInfo): StackInfo
    requires SameHeight(cur, inc)
  {
    if cur.UnknownStack? then inc
    else if inc.UnknownStack? || inc.size != cur.size then cur
    else if AllAssignable(obj, inc.items, cur.items) then cur
    else Stack(cur.size, MergedItems(obj, cur.items, inc.items))
  }

  // ---------- registers ----------

  /** The first register to which the incoming value may not be assigned. */
  function FirstBad(obj: ClassClass, cur: seq<FullInfo>, inc: seq<FullInfo>, i: nat): (r: nat)
    requires i <= |cur| <= |inc|
    ensures i <= r <= |cur|
    ensures forall j :: i <= j < r ==> AssignableTo(obj, inc[j], cur[j])
    ensures r < |cur| ==> !AssignableTo(obj, inc[r], cur[r])
    decreases |cur| - i
  {
    if i < |cur| && AssignableTo(obj, inc[i], cur[i]) then FirstBad(obj, cur, inc, i + 1) else i
  }

  function MergedFrom(obj: ClassClass, cur: seq<FullInfo>, inc: seq<FullInfo>, bad: nat): (r: seq<FullInfo>)
    requires bad <= |cur| <= |inc|
    ensures |r| == |cur|
  {
    seq(|cur|, (j: nat) requires j < |cur| => if j < bad then cur[j] else Merge(obj, inc[j], cur[j], false))
  }

  function DropBogus(s: seq<FullInfo>): (r: seq<FullInfo>)
    ensures r <= s
    ensures |r| > 0 ==> r[|r| - 1].item != Bogus
  {
    if |s| > 0 && s[|s| - 1].item == Bogus then DropBogus(s[..|s| - 1]) else s
  }

  function MergedRegisters(obj: ClassClass, cur: seq<FullInfo>, inc: seq<FullInfo>): seq<FullInfo> {
    var kept := if |cur| > |inc| then cur[..|inc|] else cur;
    var bad := FirstBad(obj, kept, inc, 0);
    if bad == |kept| then kept else DropBogus(MergedFrom(obj, kept, inc, bad))
  }

  // ---------- masks ----------

  /** The first mask of an entry. */
  function FindEntry(masks: seq<Mask>, entry: nat): (j: nat)
    ensures j <= |masks|
    ensures j < |masks| ==> masks[j].entry == entry
    ensures forall i :: 0 <= i < j ==> masks[i].entry != entry
  {
    if masks == [] || masks[0].entry == entry then 0 else 1 + FindEntry(masks[1..], entry)
  }

  /** Matches each recorded mask with the next incoming one of the same entry, and joins their bits. */
  function MergedMasks(cur: seq<Mask>, inc: seq<Mask>): seq<Mask>
    decreases |cur|
  {
    if cur == [] then []
    else
      var j := FindEntry(inc, cur[0].entry);
      if j == |inc| then MergedMasks(cur[1..], inc)
      else [Mask(cur[0].entry, cur[0].changed + inc[j].changed)] + MergedMasks(cur[1..], inc[j + 1..])
  }

  /** `r` is a subsequence of the subroutines in `s`, with at least their bits. */
  predicate Embeds(r: seq<Mask>, s: seq<Mask>) {
    r == []
    || (s != [] &&
        ((r[0].entry == s[0].entry && s[0].changed <= r[0].changed && Embeds(r[1..], s[1..])) || Embeds(r, s[1..])))
  }

  function MergedRegs(obj: ClassClass, cur: RegisterInfo, inc: RegisterInfo): RegisterInfo {
    if cur.UnknownRegisters? then inc
    else if inc.UnknownRegisters? then cur
    else Registers(MergedRegisters(obj, cur.registers, inc.registers), MergedMasks(cur.masks, inc.masks))
  }

  /** The state after merging the incoming one into the current one. */
  function Merged(obj: ClassClass, cur: State, inc: State): State
    requires SameHeight(cur.stack, inc.stack)
  {
    State(MergedStack(obj, cur.stack, inc.stack), MergedRegs(obj, cur.regs, inc.regs),
          cur.andFlags * inc.andFlags, cur.orFlags + inc.orFlags)
  }

  // ---------- known states ----------

  predicate AllKnown(obj: ClassClass, depth: nat, s: seq<FullInfo>) {
    forall i :: 0 <= i < |s| ==> Known(obj, depth, s[i])
  }

  ghost predicate MaskKnown(m: Mask) {
    forall b :: b in m.changed ==> b < MASK_BITS
  }

  ghost predicate MasksKnown(masks: seq<Mask>) {
    forall i :: 0 <= i < |masks| ==> MaskKnown(masks[i])
  }

  ghost predicate FlagsKnown(flags: set<nat>) {
    forall b :: b in flags ==> b < FLAG_BITS
  }

  ghost predicate StateKnown(obj: ClassClass, depth: nat, s: State) {
    && (s.stack.Stack? <==> s.regs.Registers?)
    && (s.stack.Stack? ==> AllKnown(obj, depth, s.stack.items))
    && (s.regs.Registers? ==> AllKnown(obj, depth, s.regs.registers))
    && (s.regs.Registers? ==> MasksKnown(s.regs.masks))
    && FlagsKnown(s.andFlags) && FlagsKnown(s.orFlags)
  }

  // ---------- what a merge achieves ----------

  /** A state that `x` may flow into. */
  ghost predicate Covers(obj: ClassClass, s: State, x: State) {
    && s.Visited() && x.Visited()
    && s.stack.size == x.stack.size && |s.stack.items| == |x.stack.items|
    && AllAssignable(obj, x.stack.items, s.stack.items)
    && |s.regs.registers| <= |x.regs.registers| && AllAssignable(obj, x.regs.registers, s.regs.registers)
    && Embeds(s.regs.masks, x.regs.masks)
    && s.andFlags <= x.andFlags && x.orFlags <= s.orFlags
  }

  ghost predicate AllLeq(obj: ClassClass, from: seq<FullInfo>, to: seq<FullInfo>)
    requires |to| <= |from|
  {
    forall i :: 0 <= i < |to| ==> Leq(obj, from[i], to[i])
  }

  ghost predicate StackUp(obj: ClassClass, s: StackInfo, t: StackInfo) {
    s.Stack? ==>
      t.Stack? && t.size == s.size && |t.items| == |s.items| && AllLeq(obj, s.items, t.items)
  }

  ghost predicate RegistersUp(obj: ClassClass, s: RegisterInfo, t: RegisterInfo) {
    s.Registers? ==>
      t.Registers? && |t.registers| <= |s.registers| && AllLeq(obj, s.registers, t.registers)
      && Embeds(t.masks, s.masks)
  }

  /** `t` is `s` or above it: merges only ever raise a state. */
  ghost predicate Above(obj: ClassClass, s: State, t: State) {
    && t.andFlags <= s.andFlags && s.orFlags <= t.orFlags
    && StackUp(obj, s.stack, t.stack) && RegistersUp(obj, s.regs, t.regs)
  }

  lemma {:induction false} EmbedsSelf(s: seq<Mask>)
    ensures Embeds(s, s)
  {
    if s != [] {
      EmbedsSelf(s[1..]);
    }
  }

  lemma {:induction false} EmbedsTransitive(r: seq<Mask>, s: seq<Mask>, t: seq<Mask>)
    requires Embeds(r, s) && Embeds(s, t)
    ensures Embeds(r, t)
    decreases |s| + |t|
  {
    if r != [] {
      if s[0].entry == t[0].entry && t[0].changed <= s[0].changed && Embeds(s[1..], t[1..]) {
        if r[0].entry == s[0].entry && s[0].changed <= r[0].changed && Embeds(r[1..], s[1..]) {
          EmbedsTransitive(r[1..], s[1..], t[1..]);
        } else {
          EmbedsTransitive(r, s[1..], t[1..]);
        }
      } else {
        EmbedsTransitive(r, s, t[1..]);
      }
    }
  }

  lemma AllAssignableUp(obj: ClassClass, depth: nat, from: seq<FullInfo>, to: seq<FullInfo>, up: seq<FullInfo>)
    requires KnownObject(obj) && AllKnown(obj, depth, from) && AllKnown(obj, depth, to) && AllKnown(obj, depth, up)
    requires |up| <= |to| <= |from| && AllAssignable(obj, from, to) && AllLeq(obj, to, up)
    ensures AllAssignable(obj, from, up)
  {
    hide AssignableTo, Leq, Known, KnownObject;
    forall i | 0 <= i < |up|
      ensures AssignableTo(obj, from[i], up[i])
    {
      AssignableUp(obj, depth, from[i], to[i], up[i]);
    }
  }

  /** What may flow into a state may flow into every state above it. */
  lemma CoversUp(obj: ClassClass, depth: nat, s: State, x: State, t: State)
    requires KnownObject(obj) && StateKnown(obj, depth, s) && StateKnown(obj, depth, x) && StateKnown(obj, depth, t)
    requires Covers(obj, s, x) && Above(obj, s, t)
    ensures Covers(obj, t, x)
  {
    hide AllAssignable, AllLeq, AllKnown, KnownObject, Embeds;
    AllAssignableUp(obj, depth, x.stack.items, s.stack.items, t.stack.items);
    AllAssignableUp(obj, depth, x.regs.registers, s.regs.registers, t.regs.registers);
    EmbedsTransitive(t.regs.masks, s.regs.masks, x.regs.masks);
  }

  lemma AboveReflexive(obj: ClassClass, s: State)
    ensures Above(obj, s, s)
  {
    hide Leq, Embeds;
    forall x: FullInfo
      ensures Leq(obj, x, x)
    {
      LeqReflexive(obj, x);
    }
    if s.regs.Registers? {
      EmbedsSelf(s.regs.masks);
    }
  }

  lemma LeqReflexive(obj: ClassClass, x: FullInfo)
    ensures Leq(obj, x, x)
  {}

  lemma AllLeqTransitive(obj: ClassClass, depth: nat, s: seq<FullInfo>, t: seq<FullInfo>, u: seq<FullInfo>)
    requires KnownObject(obj) && AllKnown(obj, depth, s) && AllKnown(obj, depth, t) && AllKnown(obj, depth, u)
    requires |u| <= |t| <= |s| && AllLeq(obj, s, t) && AllLeq(obj, t, u)
    ensures AllLeq(obj, s, u)
  {
    hide Leq, Known, KnownObject;
    forall i | 0 <= i < |u|
      ensures Leq(obj, s[i], u[i])
    {
      LeqTransitive(obj, depth, s[i], t[i], u[i]);
    }
  }

  lemma AboveTransitive(obj: ClassClass, depth: nat, s: State, t: State, u: State)
    requires KnownObject(obj) && StateKnown(obj, depth, s) && StateKnown(obj, depth, t) && StateKnown(obj, depth, u)
    requires Above(obj, s, t) && Above(obj, t, u)
    ensures Above(obj, s, u)
  {
    hide AllLeq, AllKnown, KnownObject, Embeds;
    if s.stack.Stack? {
      AllLeqTransitive(obj, depth, s.stack.items, t.stack.items, u.stack.items);
    }
    if s.regs.Registers? {
      AllLeqTransitive(obj, depth, s.regs.registers, t.regs.registers, u.regs.registers);
      EmbedsTransitive(u.regs.masks, t.regs.masks, s.regs.masks);
    }
  }

  // ---------- merged items and registers ----------

  lemma MergedItemsUp(obj: ClassClass, depth: nat, cur: seq<FullInfo>, inc: seq<FullInfo>)
    requires KnownObject(obj) && AllKnown(obj, depth, cur) && AllKnown(obj, depth, inc) && |cur| == |inc|
    ensures AllKnown(obj, depth, MergedItems(obj, cur, inc))
    ensures AllLeq(obj, cur, MergedItems(obj, cur, inc)) && AllAssignable(obj, inc, MergedItems(obj, cur, inc))
  {
    hide Known, Leq, AssignableTo, Merge, KnownObject;
    forall i | 0 <= i < |cur|
      ensures Known(obj, depth, Merge(obj, cur[i], inc[i], false))
      ensures Leq(obj, cur[i], Merge(obj, cur[i], inc[i], false))
      ensures AssignableTo(obj, inc[i], Merge(obj, cur[i], inc[i], false))
    {
      MergeKnown(obj, depth, cur[i], inc[i]);
      MergeIsUpper(obj, depth, cur[i], inc[i]);
      MergedIsAssignable(obj, depth, inc[i], cur[i]);
    }
  }

  lemma MergedFromUp(obj: ClassClass, depth: nat, cur: seq<FullInfo>, inc: seq<FullInfo>, bad: nat)
    requires KnownObject(obj) && AllKnown(obj, depth, cur) && AllKnown(obj, depth, inc) && bad <= |cur| <= |inc|
    requires forall j :: 0 <= j < bad ==> AssignableTo(obj, inc[j], cur[j])
    ensures AllKnown(obj, depth, MergedFrom(obj, cur, inc, bad))
    ensures AllLeq(obj, cur, MergedFrom(obj, cur, inc, bad)) && AllAssignable(obj, inc, MergedFrom(obj, cur, inc, bad))
  {
    hide Known, Leq, AssignableTo, Merge, KnownObject;
    forall j | 0 <= j < |cur|
      ensures Known(obj, depth, MergedFrom(obj, cur, inc, bad)[j])
      ensures Leq(obj, cur[j], MergedFrom(obj, cur, inc, bad)[j])
      ensures AssignableTo(obj, inc[j], MergedFrom(obj, cur, inc, bad)[j])
    {
      if j < bad {
        LeqReflexive(obj, cur[j]);
      } else {
        MergeKnown(obj, depth, inc[j], cur[j]);
        MergeIsUpper(obj, depth, inc[j], cur[j]);
        MergedIsAssignable(obj, depth, inc[j], cur[j]);
      }
    }
  }

  lemma MergedRegistersUp(obj: ClassClass, depth: nat, cur: seq<FullInfo>, inc: seq<FullInfo>)
    requires KnownObject(obj) && AllKnown(obj, depth, cur) && AllKnown(obj, depth, inc)
    ensures var r := MergedRegisters(obj, cur, inc);
            |r| <= |cur| && |r| <= |inc| && AllKnown(obj, depth, r) && AllLeq(obj, cur, r) && AllAssignable(obj, inc, r)
  {
    hide Known, Leq, AssignableTo, KnownObject, MergedFrom;
    var kept := if |cur| > |inc| then cur[..|inc|] else cur;
    var bad := FirstBad(obj, kept, inc, 0);
    MergedFromUp(obj, depth, kept, inc, bad);
    forall j | 0 <= j < |kept|
      ensures Leq(obj, kept[j], kept[j])
    {
      LeqReflexive(obj, kept[j]);
    }
    PrefixUp(obj, depth, kept, inc, MergedFrom(obj, kept, inc, bad), DropBogus(MergedFrom(obj, kept, inc, bad)));
  }

  lemma PrefixUp(obj: ClassClass, depth: nat, cur: seq<FullInfo>, inc: seq<FullInfo>, r: seq<FullInfo>,
                 p: seq<FullInfo>)
    requires p <= r && |r| <= |cur| && |r| <= |inc|
    requires AllKnown(obj, depth, r) && AllLeq(obj, cur, r) && AllAssignable(obj, inc, r)
    ensures AllKnown(obj, depth, p) && AllLeq(obj, cur, p) && AllAssignable(obj, inc, p)
  {
    hide Known, Leq, AssignableTo;
  }

  // ---------- merged masks ----------

  /** The merged masks are a common subsequence of both. */
  lemma {:induction false} MergedMasksEmbed(cur: seq<Mask>, inc: seq<Mask>)
    ensures Embeds(MergedMasks(cur, inc), cur) && Embeds(MergedMasks(cur, inc), inc)
    decreases |cur|
  {
    if cur != [] {
      var j := FindEntry(inc, cur[0].entry);
      if j == |inc| {
        MergedMasksEmbed(cur[1..], inc);
      } else {
        MergedMasksEmbed(cur[1..], inc[j + 1..]);
        var r := MergedMasks(cur, inc);
        assert r[1..] == MergedMasks(cur[1..], inc[j + 1..]);
        EmbedsAfter(r, inc, j);
      }
    }
  }

  lemma {:induction false} EmbedsAfter(r: seq<Mask>, s: seq<Mask>, j: nat)
    requires r != [] && j < |s| && r[0].entry == s[j].entry && s[j].changed <= r[0].changed
             && Embeds(r[1..], s[j + 1..])
    ensures Embeds(r, s)
  {
    if j > 0 {
      assert s[1..][j..] == s[j + 1..];
      EmbedsAfter(r, s[1..], j - 1);
    }
  }

  lemma MergedMasksKnown(cur: seq<Mask>, inc: seq<Mask>)
    requires MasksKnown(cur) && MasksKnown(inc)
    ensures MasksKnown(MergedMasks(cur, inc))
    decreases |cur|
  {
    if cur != [] {
      var j := FindEntry(inc, cur[0].entry);
      if j == |inc| {
        MergedMasksKnown(cur[1..], inc);
      } else {
        MergedMasksKnown(cur[1..], inc[j + 1..]);
        assert MaskKnown(cur[0]) && MaskKnown(inc[j]);
      }
    }
  }

  // ---------- merged states ----------

  /** Stacks the program always meets at one instruction: one height. */
  predicate SameShape(cur: State, inc: State) {
    cur.stack.Stack? && inc.stack.Stack? ==>
      cur.stack.size == inc.stack.size && |cur.stack.items| == |inc.stack.items|
  }

  lemma MergedStackUp(obj: ClassClass, depth: nat, cur: StackInfo, inc: StackInfo)
    requires KnownObject(obj) && inc.Stack? && AllKnown(obj, depth, inc.items)
    requires cur.Stack? ==> cur.size == inc.size && |cur.items| == |inc.items| && AllKnown(obj, depth, cur.items)
    ensures var r := MergedStack(obj, cur, inc);
            r.Stack? && r.size == inc.size && |r.items| == |inc.items| && AllKnown(obj, depth, r.items)
            && AllAssignable(obj, inc.items, r.items) && StackUp(obj, cur, r)
  {
    hide Known, KnownObject, Leq, AssignableTo, MergedItems;
    AllReflexive(obj, depth, inc.items);
    if cur.Stack? {
      AllReflexive(obj, depth, cur.items);
      MergedItemsUp(obj, depth, cur.items, inc.items);
    }
  }

  lemma AllReflexive(obj: ClassClass, depth: nat, s: seq<FullInfo>)
    ensures AllLeq(obj, s, s) && AllAssignable(obj, s, s)
  {
    hide Leq, Merge;
    forall i | 0 <= i < |s|
      ensures Leq(obj, s[i], s[i]) && Merge(obj, s[i], s[i], true) == s[i]
    {
      LeqReflexive(obj, s[i]);
      MergeSelf(obj, s[i]);
    }
  }

  lemma MergeSelf(obj: ClassClass, x: FullInfo)
    ensures Merge(obj, x, x, true) == x
  {}

  lemma MergedRegsUp(obj: ClassClass, depth: nat, cur: RegisterInfo, inc: RegisterInfo)
    requires KnownObject(obj) && inc.Registers? && AllKnown(obj, depth, inc.registers) && MasksKnown(inc.masks)
    requires cur.Registers? ==> AllKnown(obj, depth, cur.registers) && MasksKnown(cur.masks)
    ensures var r := MergedRegs(obj, cur, inc);
            r.Registers? && |r.registers| <= |inc.registers| && AllKnown(obj, depth, r.registers) && MasksKnown(r.masks)
            && AllAssignable(obj, inc.registers, r.registers) && Embeds(r.masks, inc.masks) && RegistersUp(obj, cur, r)
  {
    hide AllKnown, KnownObject, AllLeq, AllAssignable, MergedRegisters, MergedMasks, Embeds, MasksKnown;
    AllReflexive(obj, depth, inc.registers);
    EmbedsSelf(inc.masks);
    if cur.Registers? {
      MergedRegistersUp(obj, depth, cur.registers, inc.registers);
      MergedMasksEmbed(cur.masks, inc.masks);
      MergedMasksKnown(cur.masks, inc.masks);
    }
  }

  /** Merging a state in raises the recorded state to one that the new state may flow into. */
  lemma MergedUp(obj: ClassClass, depth: nat, cur: State, inc: State)
    requires KnownObject(obj) && StateKnown(obj, depth, cur) && StateKnown(obj, depth, inc)
    requires inc.Visited() && SameShape(cur, inc)
    ensures StateKnown(obj, depth, Merged(obj, cur, inc))
    ensures Covers(obj, Merged(obj, cur, inc), inc) && Above(obj, cur, Merged(obj, cur, inc))
  {
    hide AllKnown, KnownObject, AllLeq, AllAssignable, Embeds, MasksKnown, MergedStack, MergedRegs;
    MergedStackUp(obj, depth, cur.stack, inc.stack);
    MergedRegsUp(obj, depth, cur.regs, inc.regs);
  }
}
