/** Merging a state into an instruction's record in place, noting whether anything changed. */
module MergeInto {
  import opened ClassTree
  import opened TypeMerge
  import opened MergeStates

  datatype InstructionData = InstructionData(state: State, changed: bool, isTarget: bool)

  function AbsorbStack(obj: ClassClass, d: InstructionData, inc: StackInfo): InstructionData
    requires SameHeight(d.state.stack, inc)
  {
    var m := MergedStack(obj, d.state.stack, inc);
    InstructionData(d.state.(stack := m), d.changed || m != d.state.stack, d.isTarget)
  }

  function AbsorbRegs(obj: ClassClass, d: InstructionData, inc: RegisterInfo): InstructionData {
    var m := MergedRegs(obj, d.state.regs, inc);
    InstructionData(d.state.(regs := m), d.changed || m != d.state.regs, d.isTarget)
  }

  /** The record after merging a state into it: marked as changed exactly when the state is. */
  function Absorb(obj: ClassClass, d: InstructionData, inc: State): InstructionData
    requires SameHeight(d.state.stack, inc.stack)
  {
    var m := Merged(obj, d.state, inc);
    InstructionData(m, d.changed || m != d.state, d.isTarget)
  }

  method IsAssignableTo(obj: ClassClass, ghost depth: nat, from: FullInfo, to: FullInfo) returns (b: bool)
    requires KnownObject(obj) && Known(obj, depth, from) && Known(obj, depth, to)
    ensures b <==> AssignableTo(obj, from, to)
  {
    var m := MergeFullinfoTypes(obj, depth, from, to, true);
    return m == to;
  }

  // ---------- stacks ----------

  method AllItemsAssignable(obj: ClassClass, ghost depth: nat, cur: seq<FullInfo>, inc: seq<FullInfo>)
      returns (all: bool)
    requires KnownObject(obj) && AllKnown(obj, depth, cur) && AllKnown(obj, depth, inc) && |cur| == |inc|
    ensures all <==> AllAssignable(obj, inc, cur)
    ensures !all ==> MergedItems(obj, cur, inc) != cur
  {
    hide AssignableTo, Merge, KnownObject;
    hide Known;
    var i := 0;
    while i < |cur|
      invariant i <= |cur|
      invariant forall j :: 0 <= j < i ==> AssignableTo(obj, inc[j], cur[j])
    {
      var ok := IsAssignableTo(obj, depth, inc[i], cur[i]);
      if !ok {
        MergedIsAssignable(obj, depth, inc[i], cur[i]);
        assert MergedItems(obj, cur, inc)[i] != cur[i];
        return false;
      }
      i := i + 1;
    }
    return true;
  }

  method MergeItems(obj: ClassClass, ghost depth: nat, cur: seq<FullInfo>, inc: seq<FullInfo>)
      returns (r: seq<FullInfo>)
    requires KnownObject(obj) && AllKnown(obj, depth, cur) && AllKnown(obj, depth, inc) && |cur| == |inc|
    ensures r == MergedItems(obj, cur, inc)
  {
    hide Merge, Known, KnownObject;
    r := [];
    while |r| < |cur|
      invariant |r| <= |cur|
      invariant forall j :: 0 <= j < |r| ==> r[j] == Merge(obj, cur[j], inc[j], false)
    {
      var m := MergeFullinfoTypes(obj, depth, cur[|r|], inc[|r|], false);
      r := r + [m];
    }
  }

  method MergeStack(obj: ClassClass, ghost depth: nat, idata: array<InstructionData>, to: nat, inc: StackInfo)
    requires KnownObject(obj) && to < idata.Length
    requires inc.Stack? && AllKnown(obj, depth, inc.items) && SameHeight(idata[to].state.stack, inc)
    requires idata[to].state.stack.Stack? ==> AllKnown(obj, depth, idata[to].state.stack.items)
    modifies idata
    ensures idata[..] == old(idata[..])[to := AbsorbStack(obj, old(idata[to]), inc)]
  {
    hide AllAssignable, MergedItems, AllKnown, KnownObject;
    var d := idata[to];
    if d.state.stack.UnknownStack? {
      idata[to] := InstructionData(d.state.(stack := inc), true, d.isTarget);
    } else if d.state.stack.size == inc.size {
      var all := AllItemsAssignable(obj, depth, d.state.stack.items, inc.items);
      if !all {
        var items := MergeItems(obj, depth, d.state.stack.items, inc.items);
        idata[to] := InstructionData(d.state.(stack := Stack(d.state.stack.size, items)), true, d.isTarget);
      }
    }
  }

  // ---------- registers ----------

  method FirstUnassignable(obj: ClassClass, ghost depth: nat, cur: seq<FullInfo>, inc: seq<FullInfo>)
      returns (i: nat)
    requires KnownObject(obj) && AllKnown(obj, depth, cur) && AllKnown(obj, depth, inc) && |cur| <= |inc|
    ensures i == FirstBad(obj, cur, inc, 0)
  {
    hide AssignableTo, KnownObject, Known;
    i := 0;
    while i < |cur|
      invariant i <= |cur| && FirstBad(obj, cur, inc, 0) == FirstBad(obj, cur, inc, i)
    {
      var ok := IsAssignableTo(obj, depth, inc[i], cur[i]);
      if !ok {
        break;
      }
      i := i + 1;
    }
  }

  method MergeRegistersFrom(obj: ClassClass, ghost depth: nat, cur: seq<FullInfo>, inc: seq<FullInfo>, bad: nat)
      returns (r: seq<FullInfo>)
    requires KnownObject(obj) && AllKnown(obj, depth, cur) && AllKnown(obj, depth, inc) && bad <= |cur| <= |inc|
    ensures r == DropBogus(MergedFrom(obj, cur, inc, bad))
  {
    hide Merge, Known, KnownObject, DropBogus;
    var newSet := cur[..bad];
    while |newSet| < |cur|
      invariant bad <= |newSet| <= |cur|
      invariant forall j :: 0 <= j < |newSet| ==> newSet[j] == MergedFrom(obj, cur, inc, bad)[j]
    {
      var m := MergeFullinfoTypes(obj, depth, inc[|newSet|], cur[|newSet|], false);
      newSet := newSet + [m];
    }
    assert newSet == MergedFrom(obj, cur, inc, bad);
    r := WithoutTrailingBogus(newSet);
  }

  method WithoutTrailingBogus(newSet: seq<FullInfo>) returns (r: seq<FullInfo>)
    ensures r == DropBogus(newSet)
  {
    r := newSet;
    while |r| > 0 && r[|r| - 1].item == Bogus
      invariant DropBogus(r) == DropBogus(newSet)
    {
      r := r[..|r| - 1];
    }
  }

  /** Registers are replaced only when that changes them. */
  lemma RegistersChange(obj: ClassClass, depth: nat, cur: seq<FullInfo>, inc: seq<FullInfo>)
    requires AllKnown(obj, depth, cur) && AllKnown(obj, depth, inc) && KnownObject(obj)
    ensures var kept := if |cur| > |inc| then cur[..|inc|] else cur;
            MergedRegisters(obj, cur, inc) == cur <==> kept == cur && FirstBad(obj, kept, inc, 0) == |kept|
  {
    hide AssignableTo, Known, KnownObject, Merge;
    var kept := if |cur| > |inc| then cur[..|inc|] else cur;
    var bad := FirstBad(obj, kept, inc, 0);
    if bad < |kept| {
      MergedIsAssignable(obj, depth, inc[bad], kept[bad]);
      assert MergedFrom(obj, kept, inc, bad)[bad] != kept[bad];
    }
  }

  // ---------- masks ----------

  /** The first mask of `entry` at or after `from`. */
  method FindMask(masks: seq<Mask>, entry: nat, from: nat) returns (j: nat)
    requires from <= |masks|
    ensures j == from + FindEntry(masks[from..], entry)
  {
    j := from;
    while j < |masks|
      invariant from <= j <= |masks|
      invariant from + FindEntry(masks[from..], entry) == j + FindEntry(masks[j..], entry)
    {
      if masks[j].entry == entry {
        return;
      }
      assert masks[j..][1..] == masks[j + 1..];
      j := j + 1;
    }
  }

  /** The masks merged so far, `done`, and those that remain. */
  ghost predicate MaskProgress(cur: seq<Mask>, inc: seq<Mask>, done: seq<Mask>, i: nat, next: nat) {
    && i <= |cur| && next <= |inc|
    && MergedMasks(cur, inc) == done + MergedMasks(cur[i..], inc[next..])
  }

  lemma MaskStep(cur: seq<Mask>, inc: seq<Mask>, done: seq<Mask>, i: nat, next: nat, j: nat)
    requires MaskProgress(cur, inc, done, i, next) && i < |cur|
    requires j == next + FindEntry(inc[next..], cur[i].entry)
    ensures j == |inc| ==> MaskProgress(cur, inc, done, i + 1, next)
    ensures j < |inc| ==> MaskProgress(cur, inc, done + [Mask(cur[i].entry, cur[i].changed + inc[j].changed)], i + 1,
            j + 1)
  {
    MasksUnfold(cur, inc, i, next, j);
    if j < |inc| {
      hide MergedMasks;
      var m, rest := Mask(cur[i].entry, cur[i].changed + inc[j].changed), MergedMasks(cur[i + 1..], inc[j + 1..]);
      assert done + ([m] + rest) == done + [m] + rest;
    }
  }

  /** The merge of what is left of two lists, by the first entry of the one. */
  lemma MasksUnfold(cur: seq<Mask>, inc: seq<Mask>, i: nat, next: nat, j: nat)
    requires i < |cur| && next <= |inc| && j == next + FindEntry(inc[next..], cur[i].entry)
    ensures j <= |inc|
    ensures MergedMasks(cur[i..], inc[next..]) ==
            if j == |inc| then MergedMasks(cur[i + 1..], inc[next..])
            else [Mask(cur[i].entry, cur[i].changed + inc[j].changed)] + MergedMasks(cur[i + 1..], inc[j + 1..])
  {
    assert cur[i..][1..] == cur[i + 1..];
    if j < |inc| {
      assert inc[next..][j - next + 1..] == inc[j + 1..];
      assert inc[next..][j - next] == inc[j];
    }
  }

  /** Counts the matches and looks for bits that are new. */
  method CountMatches(cur: seq<Mask>, inc: seq<Mask>) returns (copyNeeded: bool)
    ensures copyNeeded <==> MergedMasks(cur, inc) != cur
  {
    hide MergedMasks;
    var i, matches, next := 0, 0, 0;
    copyNeeded := false;
    ghost var done: seq<Mask> := [];
    assert cur[0..] == cur && inc[0..] == inc;
    while i < |cur|
      invariant MaskProgress(cur, inc, done, i, next)
      invariant |done| == matches <= i
      invariant !copyNeeded && matches == i ==> done == cur[..i]
      invariant copyNeeded && matches == i ==> done != cur[..i]
    {
      var j := FindMask(inc, cur[i].entry, next);
      MaskStep(cur, inc, done, i, next, j);
      assert cur[..i + 1] == cur[..i] + [cur[i]];
      if j < |inc| {
        var m := Mask(cur[i].entry, cur[i].changed + inc[j].changed);
        assert m == cur[i] <==> inc[j].changed <= cur[i].changed;
        done := done + [m];
        matches := matches + 1;
        if !(inc[j].changed <= cur[i].changed) {
          copyNeeded := true;
        }
        next := j + 1;
      }
      i := i + 1;
    }
    NoMasks(inc[next..]);
    assert cur[|cur|..] == [] && MergedMasks(cur, inc) == done;
    assert cur[..|cur|] == cur;
    copyNeeded := matches < |cur| || copyNeeded;
  }

  lemma NoMasks(inc: seq<Mask>)
    ensures MergedMasks([], inc) == []
  {}

  method MergeMasks(cur: seq<Mask>, inc: seq<Mask>) returns (r: seq<Mask>)
    ensures r == MergedMasks(cur, inc)
  {
    hide MergedMasks;
    var i, next := 0, 0;
    r := [];
    assert cur[0..] == cur && inc[0..] == inc;
    while i < |cur|
      invariant MaskProgress(cur, inc, r, i, next)
    {
      var j := FindMask(inc, cur[i].entry, next);
      MaskStep(cur, inc, r, i, next, j);
      if j < |inc| {
        r := r + [Mask(cur[i].entry, cur[i].changed + inc[j].changed)];
        next := j + 1;
      }
      i := i + 1;
    }
    NoMasks(inc[next..]);
    assert cur[|cur|..] == [];
  }

  method MergeRegisters(obj: ClassClass, ghost depth: nat, idata: array<InstructionData>, to: nat, inc: RegisterInfo)
    requires KnownObject(obj) && to < idata.Length
    requires inc.Registers? && AllKnown(obj, depth, inc.registers)
    requires idata[to].state.regs.Registers? ==> AllKnown(obj, depth, idata[to].state.regs.registers)
    modifies idata
    ensures idata[..] == old(idata[..])[to := AbsorbRegs(obj, old(idata[to]), inc)]
  {
    hide AllAssignable, MergedMasks, KnownObject, FirstBad, DropBogus, MergedFrom, Known;
    var d := idata[to];
    if d.state.regs.UnknownRegisters? {
      idata[to] := InstructionData(d.state.(regs := inc), true, d.isTarget);
      return;
    }
    var registers, masks, changed := d.state.regs.registers, d.state.regs.masks, d.changed;
    RegistersChange(obj, depth, registers, inc.registers);
    if |registers| > |inc.registers| {
      registers := registers[..|inc.registers|];
      changed := true;
    }
    var i := FirstUnassignable(obj, depth, registers, inc.registers);
    if i < |registers| {
      registers := MergeRegistersFrom(obj, depth, registers, inc.registers, i);
      changed := true;
    }
    if |masks| > 0 {
      var copyNeeded := CountMatches(masks, inc.masks);
      if copyNeeded {
        masks := MergeMasks(masks, inc.masks);
        changed := true;
      }
    } else {
      NoMasks(inc.masks);
    }
    idata[to] := InstructionData(d.state.(regs := Registers(registers, masks)), changed, d.isTarget);
  }

  // ---------- flags, and all together ----------

  method MergeFlags(idata: array<InstructionData>, to: nat, andFlags: set<nat>, orFlags: set<nat>)
    requires to < idata.Length
    modifies idata
    ensures var d := old(idata[to]);
            var m := d.state.(andFlags := d.state.andFlags * andFlags, orFlags := d.state.orFlags + orFlags);
            idata[..] == old(idata[..])[to := InstructionData(m, d.changed || m != d.state, d.isTarget)]
  {
    var d := idata[to];
    var mergedAnd, mergedOr := d.state.andFlags * andFlags, d.state.orFlags + orFlags;
    if mergedAnd != d.state.andFlags || mergedOr != d.state.orFlags {
      idata[to] := InstructionData(d.state.(andFlags := mergedAnd, orFlags := mergedOr), true, d.isTarget);
    }
  }

  method MergeIntoOneSuccessor(obj: ClassClass, ghost depth: nat, idata: array<InstructionData>, to: nat, inc: State)
    requires KnownObject(obj) && to < idata.Length
    requires StateKnown(obj, depth, inc) && inc.Visited() && StateKnown(obj, depth, idata[to].state)
    requires SameHeight(idata[to].state.stack, inc.stack)
    modifies idata
    ensures idata[..] == old(idata[..])[to := Absorb(obj, old(idata[to]), inc)]
  {
    hide MergedStack, MergedRegs, KnownObject, AllKnown, MasksKnown;
    MergeStack(obj, depth, idata, to, inc.stack);
    MergeRegisters(obj, depth, idata, to, inc.regs);
    MergeFlags(idata, to, inc.andFlags, inc.orFlags);
  }
}
