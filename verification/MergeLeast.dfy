/** A merged state is the least one above the recorded and the incoming state: no register, no stack slot
    and no flag is given up without need. */
module MergeLeast {
  import opened ClassTree
  import opened TypeMerge
  import opened MergeStates

  /** Registers behind the end of the list are Bogus. */
  function RegisterAt(r: seq<FullInfo>, j: nat): FullInfo {
    if j < |r| then r[j] else BOGUS_FULLINFO
  }

  ghost predicate RegistersAtMost(obj: ClassClass, s: seq<FullInfo>, t: seq<FullInfo>) {
    forall j: nat :: Leq(obj, RegisterAt(s, j), RegisterAt(t, j))
  }

  /** `t` knows no more than `s`; the lists of subroutines are not compared. */
  ghost predicate AtMost(obj: ClassClass, s: State, t: State) {
    && t.andFlags <= s.andFlags && s.orFlags <= t.orFlags
    && StackUp(obj, s.stack, t.stack)
    && (s.regs.Registers? ==> t.regs.Registers? && RegistersAtMost(obj, s.regs.registers, t.regs.registers))
  }

  lemma RegisterKnown(obj: ClassClass, depth: nat, s: seq<FullInfo>, j: nat)
    requires AllKnown(obj, depth, s)
    ensures Known(obj, depth, RegisterAt(s, j))
  {
    hide KnownClass;
  }

  lemma AtMostTransitive(obj: ClassClass, depth: nat, s: State, t: State, u: State)
    requires KnownObject(obj) && StateKnown(obj, depth, s) && StateKnown(obj, depth, t) && StateKnown(obj, depth, u)
    requires AtMost(obj, s, t) && AtMost(obj, t, u)
    ensures AtMost(obj, s, u)
  {
    hide AllLeq, AllKnown, KnownObject, RegistersAtMost, MasksKnown;
    if s.stack.Stack? {
      AllLeqTransitive(obj, depth, s.stack.items, t.stack.items, u.stack.items);
    }
    if s.regs.Registers? {
      RegistersTransitive(obj, depth, s.regs.registers, t.regs.registers, u.regs.registers);
    }
  }

  lemma RegistersTransitive(obj: ClassClass, depth: nat, s: seq<FullInfo>, t: seq<FullInfo>, u: seq<FullInfo>)
    requires KnownObject(obj) && AllKnown(obj, depth, s) && AllKnown(obj, depth, t) && AllKnown(obj, depth, u)
    requires RegistersAtMost(obj, s, t) && RegistersAtMost(obj, t, u)
    ensures RegistersAtMost(obj, s, u)
  {
    hide Leq, Known, KnownObject, RegisterAt, AllKnown;
    forall j: nat
      ensures Leq(obj, RegisterAt(s, j), RegisterAt(u, j))
    {
      RegisterKnown(obj, depth, s, j);
      RegisterKnown(obj, depth, t, j);
      RegisterKnown(obj, depth, u, j);
      LeqTransitive(obj, depth, RegisterAt(s, j), RegisterAt(t, j), RegisterAt(u, j));
    }
  }

  /** Raising a state only gives things up. */
  lemma AboveAtMost(obj: ClassClass, s: State, t: State)
    requires Above(obj, s, t)
    ensures AtMost(obj, s, t)
  {
    hide StackUp, Embeds, Leq;
    if s.regs.Registers? {
      var a, b := s.regs.registers, t.regs.registers;
      forall j: nat
        ensures Leq(obj, RegisterAt(a, j), RegisterAt(b, j))
      {
        if j >= |b| {
          BogusIsTop(obj, RegisterAt(a, j));
        }
      }
    }
  }

  lemma BogusIsTop(obj: ClassClass, x: FullInfo)
    ensures Leq(obj, x, BOGUS_FULLINFO)
  {}

  // ---------- each register and each slot ----------

  /** The incoming values are assignable to all registers up to the `j`-th. */
  predicate AssignableUpTo(obj: ClassClass, cur: seq<FullInfo>, inc: seq<FullInfo>, j: nat) {
    j < |cur| && j < |inc| && forall k :: 0 <= k <= j ==> AssignableTo(obj, inc[k], cur[k])
  }

  /** Each register is kept as long as all incoming values so far are assignable, and from there on is the
      merge of the two; it is Bogus where either list ends. */
  lemma MergedRegister(obj: ClassClass, depth: nat, cur: seq<FullInfo>, inc: seq<FullInfo>, j: nat)
    requires KnownObject(obj) && AllKnown(obj, depth, cur) && AllKnown(obj, depth, inc)
    ensures RegisterAt(MergedRegisters(obj, cur, inc), j) ==
            if j >= |cur| || j >= |inc| then BOGUS_FULLINFO
            else if AssignableUpTo(obj, cur, inc, j) then cur[j]
            else Merge(obj, inc[j], cur[j], false)
  {
    hide AssignableTo, Known, KnownObject, Merge;
    var kept := if |cur| > |inc| then cur[..|inc|] else cur;
    var bad := FirstBad(obj, kept, inc, 0);
    var all := MergedFrom(obj, kept, inc, bad);
    MergedFromUp(obj, depth, kept, inc, bad);
    DropBogusAt(obj, depth, all, j);
  }

  lemma {:induction false} DropBogusAt(obj: ClassClass, depth: nat, s: seq<FullInfo>, j: nat)
    requires AllKnown(obj, depth, s)
    ensures RegisterAt(DropBogus(s), j) == RegisterAt(s, j)
  {
    hide KnownClass;
    if |s| > 0 && s[|s| - 1].item == Bogus {
      assert Known(obj, depth, s[|s| - 1]);
      DropBogusAt(obj, depth, s[..|s| - 1], j);
    }
  }

  /** A register that is not of an interface type becomes the merge of the two, kept or not. */
  lemma MergedRegisterIsMerge(obj: ClassClass, depth: nat, cur: seq<FullInfo>, inc: seq<FullInfo>, j: nat)
    requires KnownObject(obj) && AllKnown(obj, depth, cur) && AllKnown(obj, depth, inc)
    requires j < |cur| && j < |inc| && !InterfaceType(cur[j])
    ensures RegisterAt(MergedRegisters(obj, cur, inc), j) == Merge(obj, inc[j], cur[j], false)
  {
    hide AssignableTo, Known, KnownObject, Merge, MergedRegisters, Leq;
    MergedRegister(obj, depth, cur, inc, j);
    if AssignableUpTo(obj, cur, inc, j) {
      AssignableMeansLeq(obj, depth, inc[j], cur[j]);
      LeastAbove(obj, depth, inc[j], cur[j]);
    }
  }

  lemma LeastAbove(obj: ClassClass, depth: nat, x: FullInfo, y: FullInfo)
    requires KnownObject(obj) && Known(obj, depth, x) && Known(obj, depth, y) && Leq(obj, x, y)
    ensures Merge(obj, x, y, false) == y
  {
    hide Known, KnownObject, Merge, Leq;
    LeqReflexive(obj, y);
    LeastIsUnique(obj, depth, x, y, y);
  }

  // ---------- the least upper bound ----------

  lemma MergedRegistersLeast(obj: ClassClass, depth: nat, cur: seq<FullInfo>, inc: seq<FullInfo>, t: seq<FullInfo>)
    requires KnownObject(obj) && AllKnown(obj, depth, cur) && AllKnown(obj, depth, inc) && AllKnown(obj, depth, t)
    requires RegistersAtMost(obj, cur, t)
    requires forall j: nat :: AssignableUpTo(obj, cur, inc, j) || Leq(obj, RegisterAt(inc, j), RegisterAt(t, j))
    ensures RegistersAtMost(obj, MergedRegisters(obj, cur, inc), t)
  {
    hide Known, KnownObject, Merge, MergedRegisters, Leq, AssignableTo;
    forall j: nat
      ensures Leq(obj, RegisterAt(MergedRegisters(obj, cur, inc), j), RegisterAt(t, j))
    {
      MergedRegister(obj, depth, cur, inc, j);
      RegisterKnown(obj, depth, t, j);
      assert Leq(obj, RegisterAt(cur, j), RegisterAt(t, j));
      assert AssignableUpTo(obj, cur, inc, j) || Leq(obj, RegisterAt(inc, j), RegisterAt(t, j));
      if j < |cur| && j < |inc| && !AssignableUpTo(obj, cur, inc, j) {
        MergeIsLeast(obj, depth, inc[j], cur[j], RegisterAt(t, j));
      }
    }
  }

  lemma MergedStackLeast(obj: ClassClass, depth: nat, cur: StackInfo, inc: StackInfo, t: StackInfo)
    requires KnownObject(obj) && SameHeight(cur, inc) && inc.Stack? && (cur.Stack? ==> cur.size == inc.size)
    requires AllKnown(obj, depth, inc.items)
    requires cur.Stack? ==> AllKnown(obj, depth, cur.items)
    requires t.Stack? ==> AllKnown(obj, depth, t.items)
    requires StackUp(obj, cur, t)
    requires (cur.Stack? && AllAssignable(obj, inc.items, cur.items)) || StackUp(obj, inc, t)
    ensures StackUp(obj, MergedStack(obj, cur, inc), t)
  {
    hide AssignableTo, Known, KnownObject, Merge, Leq;
    if cur.Stack? && !AllAssignable(obj, inc.items, cur.items) {
      forall i | 0 <= i < |cur.items|
        ensures Leq(obj, Merge(obj, cur.items[i], inc.items[i], false), t.items[i])
      {
        MergeIsLeast(obj, depth, cur.items[i], inc.items[i], t.items[i]);
      }
    }
  }

  /** Every state that knows no more than either state knows no more than the merged one. */
  lemma MergedIsLeast(obj: ClassClass, depth: nat, cur: State, inc: State, t: State)
    requires KnownObject(obj) && StateKnown(obj, depth, cur) && StateKnown(obj, depth, inc) && StateKnown(obj, depth, t)
    requires inc.Visited() && SameShape(cur, inc) && AtMost(obj, cur, t) && AtMost(obj, inc, t)
    ensures AtMost(obj, Merged(obj, cur, inc), t)
  {
    hide AllKnown, KnownObject, StackUp, RegistersAtMost, MergedStack, MergedRegisters, MergedMasks, MasksKnown;
    MergedStackLeast(obj, depth, cur.stack, inc.stack, t.stack);
    if cur.regs.Registers? {
      AnyRegister(obj, cur.regs.registers, inc.regs.registers, t.regs.registers);
      MergedRegistersLeast(obj, depth, cur.regs.registers, inc.regs.registers, t.regs.registers);
    }
  }

  lemma AnyRegister(obj: ClassClass, cur: seq<FullInfo>, inc: seq<FullInfo>, t: seq<FullInfo>)
    requires RegistersAtMost(obj, inc, t)
    ensures forall j: nat :: AssignableUpTo(obj, cur, inc, j) || Leq(obj, RegisterAt(inc, j), RegisterAt(t, j))
  {
    hide Leq, AssignableUpTo;
  }

  // ---------- states that the incoming one may flow into ----------

  /** A state that `x` may flow into, subroutines apart. */
  ghost predicate Accepts(obj: ClassClass, t: State, x: State) {
    && t.Visited() && x.Visited()
    && t.stack.size == x.stack.size && |t.stack.items| == |x.stack.items|
    && AllAssignable(obj, x.stack.items, t.stack.items)
    && (forall j: nat :: AssignableTo(obj, RegisterAt(x.regs.registers, j), RegisterAt(t.regs.registers, j)))
    && t.andFlags <= x.andFlags && x.orFlags <= t.orFlags
  }

  /** No slot and no register is of an interface type. */
  predicate NoInterfaces(s: State) {
    && (s.stack.Stack? ==> forall i :: 0 <= i < |s.stack.items| ==> !InterfaceType(s.stack.items[i]))
    && (s.regs.Registers? ==> forall i :: 0 <= i < |s.regs.registers| ==> !InterfaceType(s.regs.registers[i]))
  }

  lemma CoversAccepts(obj: ClassClass, t: State, x: State)
    requires Covers(obj, t, x)
    ensures Accepts(obj, t, x)
  {
    hide Embeds;
    var a, b := x.regs.registers, t.regs.registers;
    forall j: nat
      ensures AssignableTo(obj, RegisterAt(a, j), RegisterAt(b, j))
    {
      if j >= |b| {
        AssignableToBogus(obj, RegisterAt(a, j));
      }
    }
  }

  lemma AssignableToBogus(obj: ClassClass, x: FullInfo)
    ensures AssignableTo(obj, x, BOGUS_FULLINFO)
  {}

  /** Without interfaces, flowing into a state is being at most that state. */
  lemma AcceptsIsAtMost(obj: ClassClass, depth: nat, t: State, x: State)
    requires KnownObject(obj) && StateKnown(obj, depth, t) && StateKnown(obj, depth, x) && NoInterfaces(t)
    requires Accepts(obj, t, x)
    ensures AtMost(obj, x, t)
  {
    hide AssignableTo, Leq, Known, KnownObject, MasksKnown, InterfaceType;
    forall i | 0 <= i < |t.stack.items|
      ensures Leq(obj, x.stack.items[i], t.stack.items[i])
    {
      AssignableMeansLeq(obj, depth, x.stack.items[i], t.stack.items[i]);
    }
    var a, b := x.regs.registers, t.regs.registers;
    forall j: nat
      ensures Leq(obj, RegisterAt(a, j), RegisterAt(b, j))
    {
      RegisterKnown(obj, depth, a, j);
      RegisterKnown(obj, depth, b, j);
      assert !InterfaceType(RegisterAt(b, j)) by { BogusIsNoInterface(); }
      assert AssignableTo(obj, RegisterAt(a, j), RegisterAt(b, j));
      AssignableMeansLeq(obj, depth, RegisterAt(a, j), RegisterAt(b, j));
    }
  }

  lemma BogusIsNoInterface()
    ensures !InterfaceType(BOGUS_FULLINFO)
  {}

  /** What may flow into a state may flow into every one that knows no more. */
  lemma AcceptsUp(obj: ClassClass, depth: nat, s: State, x: State, t: State)
    requires KnownObject(obj) && StateKnown(obj, depth, s) && StateKnown(obj, depth, x) && StateKnown(obj, depth, t)
    requires Accepts(obj, s, x) && AtMost(obj, s, t)
    ensures Accepts(obj, t, x)
  {
    hide AssignableTo, Leq, Known, KnownObject, MasksKnown;
    AllAssignableUp(obj, depth, x.stack.items, s.stack.items, t.stack.items);
    var a, b, c := x.regs.registers, s.regs.registers, t.regs.registers;
    forall j: nat
      ensures AssignableTo(obj, RegisterAt(a, j), RegisterAt(c, j))
    {
      RegisterKnown(obj, depth, a, j);
      RegisterKnown(obj, depth, b, j);
      RegisterKnown(obj, depth, c, j);
      assert AssignableTo(obj, RegisterAt(a, j), RegisterAt(b, j)) && Leq(obj, RegisterAt(b, j), RegisterAt(c, j));
      AssignableUp(obj, depth, RegisterAt(a, j), RegisterAt(b, j), RegisterAt(c, j));
    }
  }

  /** Without interfaces, the states at or above the merged one are exactly those above the recorded one that
      the incoming one may flow into: the merged state is the least of them. */
  lemma MergedIsLeastCover(obj: ClassClass, depth: nat, cur: State, inc: State, t: State)
    requires KnownObject(obj) && StateKnown(obj, depth, cur) && StateKnown(obj, depth, inc) && StateKnown(obj, depth, t)
    requires inc.Visited() && SameShape(cur, inc) && NoInterfaces(t)
    ensures AtMost(obj, cur, t) && Accepts(obj, t, inc) <==> AtMost(obj, Merged(obj, cur, inc), t)
  {
    hide AtMost, Accepts, NoInterfaces, Covers, Above, Merged, StateKnown, KnownObject;
    if AtMost(obj, cur, t) && Accepts(obj, t, inc) {
      AcceptsIsAtMost(obj, depth, t, inc);
      MergedIsLeast(obj, depth, cur, inc, t);
    }
    if AtMost(obj, Merged(obj, cur, inc), t) {
      MergedUp(obj, depth, cur, inc);
      AboveAtMost(obj, cur, Merged(obj, cur, inc));
      AtMostTransitive(obj, depth, cur, Merged(obj, cur, inc), t);
      CoversAccepts(obj, Merged(obj, cur, inc), inc);
      AcceptsUp(obj, depth, Merged(obj, cur, inc), inc, t);
    }
  }

  // ---------- with interfaces ----------

  /** In general the merged state is at most `t` exactly if the recorded one is, and so is everything of the
      incoming one that is merged and not just found assignable. */
  lemma MergedAtMostIff(obj: ClassClass, depth: nat, cur: State, inc: State, t: State)
    requires KnownObject(obj) && StateKnown(obj, depth, cur) && StateKnown(obj, depth, inc) && StateKnown(obj, depth, t)
    requires cur.Visited() && inc.Visited() && SameShape(cur, inc)
    ensures AtMost(obj, Merged(obj, cur, inc), t) <==>
            && AtMost(obj, cur, t) && t.andFlags <= inc.andFlags && inc.orFlags <= t.orFlags
            && (AllAssignable(obj, inc.stack.items, cur.stack.items) || StackUp(obj, inc.stack, t.stack))
            && forall j: nat :: AssignableUpTo(obj, cur.regs.registers, inc.regs.registers, j)
                 || Leq(obj, RegisterAt(inc.regs.registers, j), RegisterAt(t.regs.registers, j))
  {
    hide AllKnown, KnownObject, RegistersAtMost, MergedRegisters, MergedMasks, MasksKnown, AllAssignable, AllLeq,
      MergedItems, Leq, AssignableUpTo, RegisterAt, Embeds;
    if AtMost(obj, Merged(obj, cur, inc), t) {
      MergedUp(obj, depth, cur, inc);
      AboveAtMost(obj, cur, Merged(obj, cur, inc));
      AtMostTransitive(obj, depth, cur, Merged(obj, cur, inc), t);
      if !AllAssignable(obj, inc.stack.items, cur.stack.items) {
        MergedItemsAtMost(obj, depth, cur.stack.items, inc.stack.items, t.stack.items);
      }
      MergedRegistersAtMost(obj, depth, cur.regs.registers, inc.regs.registers, t.regs.registers);
    } else if AtMost(obj, cur, t) && (AllAssignable(obj, inc.stack.items, cur.stack.items)
                                      || StackUp(obj, inc.stack, t.stack)) {
      MergedStackLeast(obj, depth, cur.stack, inc.stack, t.stack);
      if forall j: nat :: AssignableUpTo(obj, cur.regs.registers, inc.regs.registers, j)
           || Leq(obj, RegisterAt(inc.regs.registers, j), RegisterAt(t.regs.registers, j)) {
        MergedRegistersLeast(obj, depth, cur.regs.registers, inc.regs.registers, t.regs.registers);
      }
    }
  }

  lemma MergedItemsAtMost(obj: ClassClass, depth: nat, cur: seq<FullInfo>, inc: seq<FullInfo>, t: seq<FullInfo>)
    requires KnownObject(obj) && AllKnown(obj, depth, cur) && AllKnown(obj, depth, inc) && AllKnown(obj, depth, t)
    requires |cur| == |inc| == |t| && AllLeq(obj, MergedItems(obj, cur, inc), t)
    ensures AllLeq(obj, inc, t)
  {
    hide Leq, Known, KnownObject, Merge;
    forall i | 0 <= i < |t|
      ensures Leq(obj, inc[i], t[i])
    {
      assert Leq(obj, MergedItems(obj, cur, inc)[i], t[i]);
      MergeIsUpper(obj, depth, cur[i], inc[i]);
      MergeKnown(obj, depth, cur[i], inc[i]);
      LeqTransitive(obj, depth, inc[i], Merge(obj, cur[i], inc[i], false), t[i]);
    }
  }

  lemma MergedRegistersAtMost(obj: ClassClass, depth: nat, cur: seq<FullInfo>, inc: seq<FullInfo>, t: seq<FullInfo>)
    requires KnownObject(obj) && AllKnown(obj, depth, cur) && AllKnown(obj, depth, inc) && AllKnown(obj, depth, t)
    requires RegistersAtMost(obj, MergedRegisters(obj, cur, inc), t)
    ensures forall j: nat :: AssignableUpTo(obj, cur, inc, j) || Leq(obj, RegisterAt(inc, j), RegisterAt(t, j))
  {
    hide Leq, Known, KnownObject, Merge, MergedRegisters, AssignableTo;
    forall j: nat
      ensures AssignableUpTo(obj, cur, inc, j) || Leq(obj, RegisterAt(inc, j), RegisterAt(t, j))
    {
      MergedRegister(obj, depth, cur, inc, j);
      assert Leq(obj, RegisterAt(MergedRegisters(obj, cur, inc), j), RegisterAt(t, j));
      if j < |cur| && j < |inc| {
        RegisterKnown(obj, depth, t, j);
        MergeIsUpper(obj, depth, inc[j], cur[j]);
        MergeKnown(obj, depth, inc[j], cur[j]);
        if !AssignableUpTo(obj, cur, inc, j) {
          LeqTransitive(obj, depth, inc[j], Merge(obj, inc[j], cur[j], false), RegisterAt(t, j));
        }
      } else {
        AboveBogus(obj, RegisterAt(t, j));
        BogusIsTop(obj, RegisterAt(inc, j));
      }
    }
  }

  lemma AboveBogus(obj: ClassClass, x: FullInfo)
    requires Leq(obj, BOGUS_FULLINFO, x)
    ensures x == BOGUS_FULLINFO
  {}

  function OneSlot(x: FullInfo): State {
    State(Stack(1, [x]), Registers([], []), {}, {})
  }

  /** Where interfaces are allowed, a merged state is not always the least that accepts the incoming one: null
      merged with a class is the class, but an interface would do as well, and is not above the class. */
  lemma InterfaceNotAbove(obj: ClassClass, i: ClassClass, c: ClassClass)
    requires KnownObject(obj) && i.super == c.super == Super(obj) && i.isInterface && !c.isInterface
    ensures var cur, inc, t := OneSlot(NULL_FULLINFO), OneSlot(FullInfo(Object, 0, Class(c))),
                OneSlot(FullInfo(Object, 0, Class(i)));
            && StateKnown(obj, 1, cur) && StateKnown(obj, 1, inc) && StateKnown(obj, 1, t)
            && AtMost(obj, cur, t) && Accepts(obj, t, inc) && SameHeight(cur.stack, inc.stack)
            && Merged(obj, cur, inc) == inc && !AtMost(obj, inc, t)
  {
    var x, y, z := NULL_FULLINFO, FullInfo(Object, 0, Class(c)), FullInfo(Object, 0, Class(i));
    InterfaceTypes(obj, i, c);
    hide Leq, Known, AssignableTo, Merge;
    assert !AssignableTo(obj, [y][0], [x][0]) && AssignableTo(obj, [y][0], [z][0]);
    assert MergedItems(obj, [x], [y]) == [y];
    forall j: nat
      ensures RegisterAt([], j) == BOGUS_FULLINFO && AssignableTo(obj, BOGUS_FULLINFO, BOGUS_FULLINFO)
      ensures Leq(obj, BOGUS_FULLINFO, BOGUS_FULLINFO)
    {
      AssignableToBogus(obj, BOGUS_FULLINFO);
      BogusIsTop(obj, BOGUS_FULLINFO);
    }
    assert MergedRegisters(obj, [], []) == [] && MergedMasks([], []) == [];
    assert !AllLeq(obj, [y], [z]) by { assert !Leq(obj, [y][0], [z][0]); }
  }

  lemma InterfaceTypes(obj: ClassClass, i: ClassClass, c: ClassClass)
    requires KnownObject(obj) && i.super == c.super == Super(obj) && i.isInterface && !c.isInterface
    ensures var x, y, z := NULL_FULLINFO, FullInfo(Object, 0, Class(c)), FullInfo(Object, 0, Class(i));
            && Known(obj, 1, x) && Known(obj, 1, y) && Known(obj, 1, z)
            && Leq(obj, x, z) && !Leq(obj, y, z) && AssignableTo(obj, y, z) && !AssignableTo(obj, y, x)
            && Merge(obj, x, y, false) == y
  {
    assert Depth(i) == Depth(c) == 1 && Root(i) == Root(c) == obj;
    assert !IsAncestor(i, c) by { assert !IsAncestor(i, obj); }
  }
}
