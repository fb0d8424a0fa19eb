/** The analysis gives up nothing without need: of all fixpoints without interfaces, its result is the
    least, whatever order the instructions are visited in. */
module LeastFixpoint {
  import opened ClassTree
  import opened TypeMerge
  import opened MergeStates
  import opened MergeInto
  import opened MergeLeast
  import opened Flow
  import opened FlowProgress
  import opened Dataflow

  function States(d: seq<InstructionData>): seq<State> {
    seq(|d|, (i: nat) requires i < |d| => d[i].state)
  }

  /** A fixpoint whose records are those of some analysis: of reached instructions, known and of the right
      height. */
  ghost predicate Solution(m: Method, e: seq<InstructionData>)
    requires Legal(m)
  {
    && |e| == |m.code| && Fixpoint(m, e)
    && forall i: nat :: i < |e| && Reachable(m, i) ==> SolutionAt(m, e, i)
  }

  ghost predicate SolutionAt(m: Method, e: seq<InstructionData>, i: nat)
    requires Legal(m) && i < |e| == |m.code|
  {
    StateKnown(m.obj, m.depth, e[i].state) && e[i].state.Visited() && Shaped(m, i, e[i].state.stack)
  }

  /** No reached instruction has an interface in its state, and effects are monotone below its state. */
  ghost predicate Plain(m: Method, e: seq<InstructionData>)
    requires Legal(m) && |e| == |m.code|
  {
    forall i: nat :: i < |e| && Reachable(m, i) ==> NoInterfaces(e[i].state) && MonotoneAt(m, i, e[i].state)
  }

  /** The result of the analysis is a solution. */
  lemma ResultIsSolution(m: Method, d: seq<InstructionData>)
    requires Legal(m) && Consistent(m, d) && Fixpoint(m, d)
    ensures Solution(m, d)
  {
    hide StateKnown, Shaped, Due, MarkedBy, FlowsTo, Entered, Marks;
    forall i: nat | i < |d| && Reachable(m, i)
      ensures SolutionAt(m, d, i)
    {
      assert RecordKnown(m, d, i);
    }
  }

  // ---------- what a fixpoint says, slot by slot and flag by flag ----------

  /** The first instruction has the arguments, is reached, and in a constructor needs a constructor call. */
  lemma EntryReceives(m: Method, d: seq<InstructionData>)
    requires Legal(m) && |d| == |m.code| && Fixpoint(m, d)
    ensures Covers(m.obj, d[0].state,
                   State(Stack(0, []), Registers(m.arguments, []), {}, if m.isConstructor then {0, 1} else {0}))
  {
    hide Covers, FlowsTo, Reachable;
    assert EntryState(m).orFlags == if m.isConstructor then {0, 1} else {0};
  }

  /** Each successor has the effect of the instruction, and notes that `this` is constructed where the
      instruction did so. */
  lemma NextReceives(m: Method, d: seq<InstructionData>, i: nat, k: nat)
    requires Legal(m) && |d| == |m.code| && Fixpoint(m, d) && i < |d| && Reachable(m, i) && k < |Successors(m, i)|
    ensures var s, r := d[i].state, m.step(i, d[i].state);
            Covers(m.obj, d[Successors(m, i)[k]].state,
                   State(r.stack, r.regs, s.andFlags + (if m.code[i].InvokeInit? && r.initsThis then {0} else {}),
                         s.orFlags))
  {
    hide Covers, HandlersCover, Reachable;
    assert FlowsTo(m, d, i);
  }

  /** Each handler has the registers from before the instruction and, for a constructor call, those from
      after it too, and then must not return if `this` is what was constructed. */
  lemma HandlerReceives(m: Method, d: seq<InstructionData>, i: nat, k: nat)
    requires Legal(m) && |d| == |m.code| && Fixpoint(m, d) && i < |d| && Reachable(m, i)
    requires k < |m.handlers| && m.handlers[k].Protects(i)
    ensures var s, r, h := d[i].state, m.step(i, d[i].state), m.handlers[k];
            && Covers(m.obj, d[h.handler].state, State(h.stack, s.regs, s.andFlags, s.orFlags))
            && (m.code[i].InvokeInit? ==>
                  Covers(m.obj, d[h.handler].state,
                         State(h.stack, r.regs, s.andFlags + (if r.initsThis then {0} else {}),
                               s.orFlags + (if r.initsThis then {2} else {}))))
  {
    hide Covers, Reachable;
    var s, h := d[i].state, m.handlers[k];
    assert FlowsTo(m, d, i) && HandlerCovers(m, d, i, s, h);
    assert AndAfter(m, i, s) * s.andFlags == s.andFlags;
    assert State(h.stack, s.regs, s.andFlags, s.orFlags) in Thrown(m, i, s, h);
    assert m.code[i].InvokeInit? ==> ThrownAfter(m, i, s, h) in Thrown(m, i, s, h);
  }

  // ---------- a fixpoint accounts for everything ----------

  lemma EntryAtMost(m: Method, e: seq<InstructionData>)
    requires WellFormed(m) && Solution(m, e) && Plain(m, e)
    ensures AtMost(m.obj, EntryState(m), e[0].state)
    ensures EntryState(m) ==
            State(Stack(0, []), Registers(m.arguments, []), {}, if m.isConstructor then {0, 1} else {0})
  {
    hide AtMost, Accepts, Covers, Reachable, Shaped, FlowsTo, MonotoneAt, Due;
    EntryWelcome(m);
    ReachableEntry(m);
    assert SolutionAt(m, e, 0);
    CoversAccepts(m.obj, e[0].state, EntryState(m));
    AcceptsIsAtMost(m.obj, m.depth, e[0].state, EntryState(m));
  }

  lemma NextWithinAt(m: Method, e: seq<InstructionData>, i: nat)
    requires WellFormed(m) && Solution(m, e) && Plain(m, e) && i < |e| && Reachable(m, i)
    ensures NextWithin(m, States(e), i)
  {
    hide WellFormed, AtMost, Accepts, Covers, Reachable, Shaped, StateKnown, NoInterfaces, MonotoneAt, HandlersCover;
    LegalMethod(m);
    var s := e[i].state;
    assert SolutionAt(m, e, i) && FlowsTo(m, e, i);
    AfterKnown(m, i, s, AndAfter(m, i, s), s.orFlags);
    forall k | 0 <= k < |Successors(m, i)|
      ensures AtMost(m.obj, After(m, i, s), e[Successors(m, i)[k]].state)
    {
      var t := Successors(m, i)[k];
      ReachableStep(m, i, t);
      assert SolutionAt(m, e, t);
      CoversAccepts(m.obj, e[t].state, After(m, i, s));
      AcceptsIsAtMost(m.obj, m.depth, e[t].state, After(m, i, s));
    }
  }

  lemma ThrownWithinAt(m: Method, e: seq<InstructionData>, i: nat, k: nat)
    requires WellFormed(m) && Solution(m, e) && Plain(m, e) && i < |e| && Reachable(m, i)
    requires k < |m.handlers| && m.handlers[k].Protects(i)
    ensures ThrownWithin(m, States(e), i, m.handlers[k])
  {
    hide WellFormed, AtMost, Accepts, Covers, Reachable, Shaped, StateKnown, NoInterfaces, MonotoneAt;
    LegalMethod(m);
    var s, h := e[i].state, m.handlers[k];
    assert SolutionAt(m, e, i) && FlowsTo(m, e, i) && HandlerCovers(m, e, i, s, h);
    assert HandledBy(m, i, h.handler);
    ReachableStep(m, i, h.handler);
    assert SolutionAt(m, e, h.handler);
    assert AndAfter(m, i, s) * s.andFlags == s.andFlags;
    var x, y := State(h.stack, s.regs, s.andFlags, s.orFlags), ThrownAfter(m, i, s, h);
    AfterKnown(m, i, s, s.andFlags, s.orFlags);
    AfterKnown(m, i, s, y.andFlags, y.orFlags);
    assert x in Thrown(m, i, s, h);
    CoversAccepts(m.obj, e[h.handler].state, x);
    AcceptsIsAtMost(m.obj, m.depth, e[h.handler].state, x);
    if m.code[i].InvokeInit? {
      assert y in Thrown(m, i, s, h);
      CoversAccepts(m.obj, e[h.handler].state, y);
      AcceptsIsAtMost(m.obj, m.depth, e[h.handler].state, y);
    }
  }

  /** The states of a fixpoint without interfaces are closed. */
  lemma FixpointIsClosed(m: Method, e: seq<InstructionData>)
    requires WellFormed(m) && Solution(m, e) && Plain(m, e)
    ensures Closed(m, States(e))
  {
    hide WellFormed, AtMost, Reachable, Shaped, StateKnown, NoInterfaces, MonotoneAt, Fixpoint;
    hide NextWithin, ThrownWithin;
    LegalMethod(m);
    EntryAtMost(m, e);
    forall i: nat | i < |e| && Reachable(m, i)
      ensures ClosedAt(m, States(e), i)
    {
      assert SolutionAt(m, e, i);
      NextWithinAt(m, e, i);
      forall k | 0 <= k < |m.handlers| && m.handlers[k].Protects(i)
        ensures ThrownWithin(m, States(e), i, m.handlers[k])
      {
        ThrownWithinAt(m, e, i, k);
      }
    }
  }

  /** The result of the analysis knows at least what any fixpoint without interfaces does. */
  lemma LeastOfAll(m: Method, d: seq<InstructionData>, e: seq<InstructionData>)
    requires WellFormed(m) && |d| == |m.code| && Least(m, d) && Solution(m, e) && Plain(m, e)
    ensures forall i: nat :: i < |d| && Reachable(m, i) ==> AtMost(m.obj, d[i].state, e[i].state)
  {
    FixpointIsClosed(m, e);
    hide WellFormed, AtMost, Reachable, Fixpoint, Plain, Closed;
    LegalMethod(m);
    forall i: nat | i < |d| && Reachable(m, i)
      ensures AtMost(m.obj, d[i].state, e[i].state)
    {
      assert AtMost(m.obj, d[i].state, States(e)[i]);
    }
  }

  /** Two such results agree in every slot, every register and every flag. */
  lemma ResultUnique(m: Method, d: seq<InstructionData>, e: seq<InstructionData>, i: nat, j: nat)
    requires WellFormed(m) && Solution(m, d) && Plain(m, d) && Least(m, d)
    requires Solution(m, e) && Plain(m, e) && Least(m, e) && i < |d| && Reachable(m, i)
    ensures d[i].state.Visited() && e[i].state.Visited() && d[i].state.stack == e[i].state.stack
    ensures RegisterAt(d[i].state.regs.registers, j) == RegisterAt(e[i].state.regs.registers, j)
    ensures d[i].state.andFlags == e[i].state.andFlags && d[i].state.orFlags == e[i].state.orFlags
  {
    hide WellFormed, AtMost, Reachable, Fixpoint, Plain, Least, StateKnown, Shaped;
    LegalMethod(m);
    LeastOfAll(m, d, e);
    LeastOfAll(m, e, d);
    assert SolutionAt(m, d, i) && SolutionAt(m, e, i);
    AtMostBoth(m.obj, m.depth, d[i].state, e[i].state, j) by { assert KnownObject(m.obj); }
  }

  lemma AtMostBoth(obj: ClassClass, depth: nat, s: State, t: State, j: nat)
    requires KnownObject(obj) && StateKnown(obj, depth, s) && StateKnown(obj, depth, t) && s.Visited() && t.Visited()
    requires AtMost(obj, s, t) && AtMost(obj, t, s)
    ensures s.stack == t.stack && RegisterAt(s.regs.registers, j) == RegisterAt(t.regs.registers, j)
    ensures s.andFlags == t.andFlags && s.orFlags == t.orFlags
  {
    hide Leq, Known, KnownObject, RegisterAt, MasksKnown;
    forall k | 0 <= k < |s.stack.items|
      ensures s.stack.items[k] == t.stack.items[k]
    {
      LeqAntisymmetric(obj, depth, s.stack.items[k], t.stack.items[k]);
    }
    RegisterKnown(obj, depth, s.regs.registers, j);
    RegisterKnown(obj, depth, t.regs.registers, j);
    LeqAntisymmetric(obj, depth, RegisterAt(s.regs.registers, j), RegisterAt(t.regs.registers, j));
  }

  // ---------- with interfaces ----------

  /** An instruction that pushes an object of class `c`, and a return. */
  function PushMethod(obj: ClassClass, c: ClassClass): Method {
    Method(obj, 1, [Opcode.Next, Exit],
           (n: nat, s: State) => Step(Stack(1, [FullInfo(Object, 0, Class(c))]), Registers([], []), false),
           [], [(0, 0), (1, 1)], [], false)
  }

  /** Its records when the pushed object is taken to be an `x`. */
  function PushRecords(x: FullInfo): seq<InstructionData> {
    [InstructionData(State(Stack(0, []), Registers([], []), {}, {0}), false, false),
     InstructionData(State(Stack(1, [x]), Registers([], []), {}, {0}), false, false)]
  }

  lemma PushReachable(m: Method)
    requires m.code == [Opcode.Next, Exit] && m.handlers == []
    ensures Reachable(m, 0) && Reachable(m, 1)
  {
    ReachableEntry(m);
    assert Edge(m, 0, 1) by { assert 1 in Successors(m, 0); }
    ReachableStep(m, 0, 1);
  }

  lemma PushWellFormed(obj: ClassClass, c: ClassClass, m: Method)
    requires KnownObject(obj) && Known(obj, 1, FullInfo(Object, 0, Class(c))) && m == PushMethod(obj, c)
    ensures WellFormed(m)
  {
    hide Known;
    assert Legal(m);
    forall i: nat, s: State | i < |m.code| && StateKnown(m.obj, m.depth, s) && s.Visited() && Shaped(m, i, s.stack)
      ensures StepKeeps(m, i, s)
    {
      assert m.step(i, s).stack == Stack(1, [FullInfo(Object, 0, Class(c))]);
    }
  }

  /** What flows in the method, and that the records accept it. */
  lemma PushFlows(obj: ClassClass, c: ClassClass, m: Method, x: FullInfo)
    requires KnownObject(obj) && m == PushMethod(obj, c) && Legal(m) && Known(obj, 1, x)
    requires AssignableTo(obj, FullInfo(Object, 0, Class(c)), x)
    ensures Entered(m, PushRecords(x)) && FlowsTo(m, PushRecords(x), 0) && FlowsTo(m, PushRecords(x), 1)
  {
    hide Known, AssignableTo, Reachable, Embeds;
    var e := PushRecords(x);
    EmbedsSelf([]);
    var s := e[0].state;
    assert EntryState(m).orFlags == {0};
    assert AndAfter(m, 0, s) == {};
    assert After(m, 0, s).stack.items[0] == FullInfo(Object, 0, Class(c));
    assert Covers(obj, e[1].state, After(m, 0, s));
  }

  lemma PushKnown(obj: ClassClass, c: ClassClass, m: Method, x: FullInfo, i: nat)
    requires m == PushMethod(obj, c) && Legal(m) && Known(obj, 1, x) && i < 2
    ensures SolutionAt(m, PushRecords(x), i)
  {
    hide Known;
  }

  /** The pushed object may be taken to be anything that it is assignable to. */
  lemma PushSolution(obj: ClassClass, c: ClassClass, m: Method, x: FullInfo)
    requires KnownObject(obj) && m == PushMethod(obj, c) && WellFormed(m) && Known(obj, 1, x)
    requires AssignableTo(obj, FullInfo(Object, 0, Class(c)), x)
    ensures Legal(m) && Solution(m, PushRecords(x))
  {
    LegalMethod(m);
    PushReachable(m);
    PushFlows(obj, c, m, x);
    PushKnown(obj, c, m, x, 0);
    PushKnown(obj, c, m, x, 1);
    PushUnmarked(m);
    PushParts(x);
    assert |m.code| == 2;
    hide Known, AssignableTo, Reachable, WellFormed, FlowsTo, Entered, SolutionAt, Marks, Legal, PushRecords;
    hide PushMethod;
  }

  lemma PushParts(x: FullInfo)
    ensures var e := PushRecords(x);
            |e| == 2 && forall i: nat :: i < 2 ==> e[i].state.orFlags == {REACHED} && !e[i].isTarget
  {}

  lemma PushUnmarked(m: Method)
    requires m.code == [Opcode.Next, Exit] && m.handlers == []
    ensures forall i: nat, t: nat :: i < 2 ==> !Marks(m, i, t)
  {}

  /** In general the result is not below every fixpoint: an object of class `c` on the stack may be taken to
      be one of an interface, which is a fixpoint too, but is not above `c`. */
  lemma InterfaceFixpoint(obj: ClassClass, i: ClassClass, c: ClassClass, m: Method, d: seq<InstructionData>)
    requires KnownObject(obj) && i.super == c.super == Super(obj) && i.isInterface && !c.isInterface
    requires m == PushMethod(obj, c)
    ensures WellFormed(m) && Solution(m, PushRecords(FullInfo(Object, 0, Class(i)))) && Reachable(m, 1)
    ensures Solution(m, d) && Least(m, d) ==>
              !AtMost(obj, d[1].state, PushRecords(FullInfo(Object, 0, Class(i)))[1].state)
  {
    var y, z := FullInfo(Object, 0, Class(c)), FullInfo(Object, 0, Class(i));
    InterfaceTypes(obj, i, c);
    AssignableSelf(obj, y);
    assert !InterfaceType(y);
    hide Known, AssignableTo, Leq, Reachable, WellFormed, InterfaceType, Merge;
    PushWellFormed(obj, c, m);
    PushSolution(obj, c, m, y);
    PushSolution(obj, c, m, z);
    PushReachable(m);
    PushPlain(obj, c, m, y);
    if Solution(m, d) && Least(m, d) {
      LeastOfAll(m, d, PushRecords(y));
      assert SolutionAt(m, d, 1);
      NextReceives(m, d, 0, 0);
      hide Solution, Least;
      var w := d[1].state.stack.items[0];
      PushedExactly(obj, c, y, w);
      assert d[1].state.stack.items[0] == y;
      assert !Leq(obj, y, z);
    }
  }

  lemma AssignableSelf(obj: ClassClass, x: FullInfo)
    ensures AssignableTo(obj, x, x)
  {}

  lemma PushPlain(obj: ClassClass, c: ClassClass, m: Method, y: FullInfo)
    requires KnownObject(obj) && m == PushMethod(obj, c) && Legal(m) && !InterfaceType(y)
    ensures Plain(m, PushRecords(y))
  {
    hide InterfaceType, Reachable, Leq;
    LeqReflexive(obj, FullInfo(Object, 0, Class(c)));
    BogusIsTop(obj, BOGUS_FULLINFO);
    forall n: nat | n < 2
      ensures MonotoneAt(m, n, PushRecords(y)[n].state)
    {
      var q := Step(Stack(1, [FullInfo(Object, 0, Class(c))]), Registers([], []), false);
      assert StepAtMost(obj, q, q);
      assert forall s: State {:trigger m.step(n, s)} :: m.step(n, s) == q;
    }
  }

  /** What is at most a class, and what objects of it are assignable to, is the class. */
  lemma PushedExactly(obj: ClassClass, c: ClassClass, y: FullInfo, w: FullInfo)
    requires KnownObject(obj) && c.super == Super(obj) && !c.isInterface && y == FullInfo(Object, 0, Class(c))
    requires Known(obj, 1, y) && Known(obj, 1, w) && Leq(obj, w, y) && AssignableTo(obj, y, w)
    ensures w == y
  {
    AssignableMeansLeq(obj, 1, y, w);
    if Leq(obj, y, w) {
      LeqAntisymmetric(obj, 1, y, w);
    } else if IsAncestor(c, w.extra.cls) {
      InterfaceAncestors(obj, 1, w.extra.cls, c);
    }
  }
}
