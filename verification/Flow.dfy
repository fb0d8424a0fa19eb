/** A method's flow of control, and what flows from an instruction to those that may follow it. */
module Flow {
  import opened ClassTree
  import opened TypeMerge
  import opened MergeStates
  import opened MergeInto
  import opened MergeLeast

  datatype Opcode =
    | Next | InvokeInit | If(target: nat) | Goto(target: nat) | Exit | Switch(targets: seq<nat>)

  /** The effect of an instruction, and whether it was the constructor call for `this`. */
  datatype Step = Step(stack: StackInfo, regs: RegisterInfo, initsThis: bool)

  datatype Handler = Handler(start: nat, end: nat, handler: nat, stack: StackInfo) {
    predicate Protects(i: nat) {
      start <= i < end
    }
  }

  const REACHED: nat := 0
  const NEED_CONSTRUCTOR: nat := 1
  const NO_RETURN: nat := 2
  const CONSTRUCTED: nat := 0

  /** A method without subroutines. `shape` gives the one stack height, and number of items, that
      each instruction may be reached with. */
  datatype Method = Method(
    obj: ClassClass, depth: nat, code: seq<Opcode>, step: (nat, State) -> Step, handlers: seq<Handler>,
    shape: seq<(nat, nat)>, arguments: seq<FullInfo>, isConstructor: bool)

  function Successors(m: Method, i: nat): seq<nat>
    requires i < |m.code|
  {
    match m.code[i]
    case Next => [i + 1]
    case InvokeInit => [i + 1]
    case If(target) => [i + 1, target]
    case Goto(target) => [target]
    case Exit => []
    case Switch(targets) => targets
  }

  /** Where an instruction may jump to, apart from falling through. */
  function Targets(m: Method, i: nat): seq<nat>
    requires i < |m.code|
  {
    match m.code[i]
    case If(target) => [target]
    case Goto(target) => [target]
    case Switch(targets) => targets
    case _ => []
  }

  // ---------- what flows ----------

  function AndAfter(m: Method, i: nat, s: State): set<nat>
    requires i < |m.code|
  {
    s.andFlags + (if m.code[i].InvokeInit? && m.step(i, s).initsThis then {CONSTRUCTED} else {})
  }

  /** What reaches a successor. */
  function After(m: Method, i: nat, s: State): State
    requires i < |m.code|
  {
    State(m.step(i, s).stack, m.step(i, s).regs, AndAfter(m, i, s), s.orFlags)
  }

  /** What reaches a handler: the registers before the instruction, and for a constructor call also
      those after it. */
  function Thrown(m: Method, i: nat, s: State, h: Handler): (r: seq<State>)
    requires i < |m.code|
  {
    if m.code[i].InvokeInit? then [ThrownBefore(s, h), ThrownAfter(m, i, s, h)]
    else [State(h.stack, s.regs, AndAfter(m, i, s) * s.andFlags, s.orFlags)]
  }

  function ThrownBefore(s: State, h: Handler): State {
    State(h.stack, s.regs, s.andFlags, s.orFlags)
  }

  function ThrownAfter(m: Method, i: nat, s: State, h: Handler): State
    requires i < |m.code|
  {
    State(h.stack, m.step(i, s).regs, AndAfter(m, i, s),
          s.orFlags + (if m.step(i, s).initsThis then {NO_RETURN} else {}))
  }

  // ---------- well-formed methods ----------

  predicate Shaped(m: Method, i: nat, s: StackInfo)
    requires i < |m.shape|
  {
    s.Stack? ==> (s.size, |s.items|) == m.shape[i]
  }

  ghost predicate StepKeeps(m: Method, i: nat, s: State)
    requires |m.shape| == |m.code| && i < |m.code|
    requires forall k :: 0 <= k < |Successors(m, i)| ==> Successors(m, i)[k] < |m.code|
  {
    var r := m.step(i, s);
    && r.stack.Stack? && AllKnown(m.obj, m.depth, r.stack.items)
    && r.regs.Registers? && AllKnown(m.obj, m.depth, r.regs.registers) && MasksKnown(r.regs.masks)
    && forall k :: 0 <= k < |Successors(m, i)| ==> Shaped(m, Successors(m, i)[k], r.stack)
  }

  predicate Legal(m: Method) {
    && KnownObject(m.obj) && 0 < |m.code| == |m.shape|
    && (forall i: nat :: i < |m.code| ==> forall k :: 0 <= k < |Successors(m, i)| ==> Successors(m, i)[k] < |m.code|)
    && (forall i: nat :: i < |m.code| ==> forall k :: 0 <= k < |Targets(m, i)| ==> Targets(m, i)[k] < |m.code|)
    && (forall k :: 0 <= k < |m.handlers| ==> m.handlers[k].handler < |m.code|)
  }

  /** What earlier checks and the format promise: legal targets, one stack height for each
      instruction, and transfer functions that yield known types. */
  ghost predicate WellFormed(m: Method) {
    && Legal(m)
    && (forall k :: 0 <= k < |m.handlers| ==>
          m.handlers[k].stack.Stack? && AllKnown(m.obj, m.depth, m.handlers[k].stack.items)
          && Shaped(m, m.handlers[k].handler, m.handlers[k].stack))
    && (forall i: nat, s: State {:trigger m.step(i, s)} ::
          i < |m.code| && StateKnown(m.obj, m.depth, s) && s.Visited() && Shaped(m, i, s.stack) ==> StepKeeps(m, i, s))
    && m.shape[0] == (0, 0) && AllKnown(m.obj, m.depth, m.arguments)
  }

  function EntryState(m: Method): State {
    State(Stack(0, []), Registers(m.arguments, []), {}, {REACHED} + if m.isConstructor then {NEED_CONSTRUCTOR} else {})
  }

  // ---------- reachable instructions ----------

  predicate Edge(m: Method, i: nat, t: nat)
    requires i < |m.code|
  {
    t in Successors(m, i) || HandledBy(m, i, t)
  }

  predicate HandledBy(m: Method, i: nat, t: nat) {
    exists k :: 0 <= k < |m.handlers| && m.handlers[k].Protects(i) && m.handlers[k].handler == t
  }

  predicate Path(m: Method, p: seq<nat>) {
    && p != [] && p[0] == 0 && (forall k :: 0 <= k < |p| ==> p[k] < |m.code|)
    && forall k :: 0 < k < |p| ==> Edge(m, p[k - 1], p[k])
  }

  ghost predicate Reachable(m: Method, t: nat) {
    exists p: seq<nat> :: Path(m, p) && p[|p| - 1] == t
  }

  lemma ReachableStep(m: Method, i: nat, t: nat)
    requires i < |m.code| && t < |m.code| && Reachable(m, i) && Edge(m, i, t)
    ensures Reachable(m, t)
  {
    hide Edge;
    var p: seq<nat> :| Path(m, p) && p[|p| - 1] == i;
    assert Path(m, p + [t]);
  }

  lemma ReachableEntry(m: Method)
    requires 0 < |m.code|
    ensures Reachable(m, 0)
  {
    assert Path(m, [0]);
  }

  /** A jump target or a handler of this instruction. */
  predicate Marks(m: Method, i: nat, t: nat)
    requires i < |m.code|
  {
    t in Targets(m, i) || HandledBy(m, i, t)
  }

  /** Where control goes: on, unless the instruction is a goto, a switch or one that leaves the method; to
      the targets of branches; and to the handlers that protect the instruction. */
  lemma EdgeIff(m: Method, i: nat, t: nat)
    requires i < |m.code|
    ensures Edge(m, i, t) <==>
            || (t == i + 1 && (m.code[i].Next? || m.code[i].InvokeInit? || m.code[i].If?))
            || (m.code[i].If? && t == m.code[i].target) || (m.code[i].Goto? && t == m.code[i].target)
            || (m.code[i].Switch? && t in m.code[i].targets)
            || exists k :: 0 <= k < |m.handlers| && m.handlers[k].handler == t
                           && m.handlers[k].start <= i < m.handlers[k].end
  {
    match m.code[i] {
      case If(target) => assert Successors(m, i)[0] == i + 1 && Successors(m, i)[1] == target;
      case Next => assert Successors(m, i)[0] == i + 1;
      case InvokeInit => assert Successors(m, i)[0] == i + 1;
      case Goto(target) => assert Successors(m, i)[0] == target;
      case _ =>
    }
  }

  /** What is marked as a target: those of branches, and handlers, but not what control falls into. */
  lemma MarksIff(m: Method, i: nat, t: nat)
    requires i < |m.code|
    ensures Marks(m, i, t) <==>
            || (m.code[i].If? && t == m.code[i].target) || (m.code[i].Goto? && t == m.code[i].target)
            || (m.code[i].Switch? && t in m.code[i].targets)
            || exists k :: 0 <= k < |m.handlers| && m.handlers[k].handler == t
                           && m.handlers[k].start <= i < m.handlers[k].end
  {
    match m.code[i] {
      case If(target) => assert Targets(m, i)[0] == target;
      case Goto(target) => assert Targets(m, i)[0] == target;
      case _ =>
    }
  }

  // ---------- states that account for everything ----------

  /** The effect `r` knows at least what `q` does. */
  ghost predicate StepAtMost(obj: ClassClass, r: Step, q: Step) {
    && StackUp(obj, r.stack, q.stack)
    && (r.regs.Registers? ==>
          q.regs.Registers? && RegistersAtMost(obj, r.regs.registers, q.regs.registers))
  }

  /** Knowing more than `s` before an instruction, one knows at least as much after it, and a constructor
      call is one for `this` just as it is in `s`. */
  ghost predicate MonotoneAt(m: Method, i: nat, s: State)
    requires i < |m.code| == |m.shape|
  {
    forall x: State {:trigger m.step(i, x)} ::
      StateKnown(m.obj, m.depth, x) && x.Visited() && Shaped(m, i, x.stack) && AtMost(m.obj, x, s) ==>
        StepAtMost(m.obj, m.step(i, x), m.step(i, s))
        && (m.code[i].InvokeInit? ==> m.step(i, x).initsThis == m.step(i, s).initsThis)
  }

  /** The states `g` have, at each successor of `i`, at most what is left after it. */
  ghost predicate NextWithin(m: Method, g: seq<State>, i: nat)
    requires Legal(m) && i < |g| == |m.code|
  {
    var r := m.step(i, g[i]);
    var constructed := if m.code[i].InvokeInit? && r.initsThis then {0} else {};
    forall k :: 0 <= k < |Successors(m, i)| ==>
      AtMost(m.obj, State(r.stack, r.regs, g[i].andFlags + constructed, g[i].orFlags), g[Successors(m, i)[k]])
  }

  /** And at each handler, at most what there was before it; where it calls a constructor, at most what is
      left after it as well, which must not return if `this` is what was constructed. */
  ghost predicate ThrownWithin(m: Method, g: seq<State>, i: nat, h: Handler)
    requires Legal(m) && i < |g| == |m.code| && h.handler < |g|
  {
    var r := m.step(i, g[i]);
    && AtMost(m.obj, State(h.stack, g[i].regs, g[i].andFlags, g[i].orFlags), g[h.handler])
    && (m.code[i].InvokeInit? ==>
          AtMost(m.obj, State(h.stack, r.regs, g[i].andFlags + (if r.initsThis then {0} else {}),
                              g[i].orFlags + (if r.initsThis then {2} else {})), g[h.handler]))
  }

  ghost predicate ClosedAt(m: Method, g: seq<State>, i: nat)
    requires Legal(m) && i < |g| == |m.code|
  {
    && StateKnown(m.obj, m.depth, g[i]) && g[i].Visited() && Shaped(m, i, g[i].stack) && MonotoneAt(m, i, g[i])
    && NextWithin(m, g, i)
    && forall k :: 0 <= k < |m.handlers| && m.handlers[k].Protects(i) ==> ThrownWithin(m, g, i, m.handlers[k])
  }

  /** States, one for each instruction, that have the arguments at the entry and whatever flows from each
      instruction that can be reached. */
  ghost predicate Closed(m: Method, g: seq<State>)
    requires Legal(m)
  {
    && |g| == |m.code|
    && AtMost(m.obj, State(Stack(0, []), Registers(m.arguments, []), {}, if m.isConstructor then {0, 1} else {0}), g[0])
    && forall i: nat :: i < |g| && Reachable(m, i) ==> ClosedAt(m, g, i)
  }

  /** A state that knows at least what any closed states have here. */
  ghost predicate Due(m: Method, i: nat, s: State)
    requires Legal(m) && i < |m.code|
  {
    Reachable(m, i) ==> forall g: seq<State> :: Closed(m, g) ==> AtMost(m.obj, s, g[i])
  }

  // ---------- what the analysis keeps ----------

  /** The records are consistent: known states of the right height, reached exactly when visited,
      and only along paths of the method. */
  ghost predicate Consistent(m: Method, d: seq<InstructionData>)
    requires Legal(m)
  {
    && |d| == |m.code|
    && forall i: nat :: i < |d| ==> RecordKnown(m, d, i)
  }

  ghost predicate RecordKnown(m: Method, d: seq<InstructionData>, i: nat)
    requires Legal(m) && i < |d| == |m.code|
  {
    && StateKnown(m.obj, m.depth, d[i].state) && Shaped(m, i, d[i].state.stack)
    && (d[i].state.Visited() <==> REACHED in d[i].state.orFlags)
    && (d[i].state.Visited() ==> Reachable(m, i))
    && (d[i].changed ==> d[i].state.Visited())
    && (d[i].isTarget ==> MarkedBy(m, d, i))
    && Due(m, i, d[i].state)
  }

  ghost predicate MarkedBy(m: Method, d: seq<InstructionData>, t: nat)
    requires |d| == |m.code|
  {
    exists i: nat :: i < |d| && d[i].state.Visited() && Marks(m, i, t)
  }

  /** Everything that leaves instruction `i` is covered by the records of those that follow it. */
  ghost predicate FlowsTo(m: Method, d: seq<InstructionData>, i: nat)
    requires Legal(m) && i < |d| == |m.code|
  {
    && (forall k :: 0 <= k < |Successors(m, i)| ==>
          Covers(m.obj, d[Successors(m, i)[k]].state, After(m, i, d[i].state)))
    && HandlersCover(m, d, i, d[i].state, |m.handlers|)
  }

  ghost predicate HandlersCover(m: Method, d: seq<InstructionData>, i: nat, s: State, count: nat)
    requires Legal(m) && i < |d| == |m.code| && count <= |m.handlers|
  {
    forall k :: 0 <= k < count && m.handlers[k].Protects(i) ==> HandlerCovers(m, d, i, s, m.handlers[k])
  }

  ghost predicate HandlerCovers(m: Method, d: seq<InstructionData>, i: nat, s: State, h: Handler)
    requires i < |d| == |m.code| && h.handler < |d|
  {
    forall x :: x in Thrown(m, i, s, h) ==> Covers(m.obj, d[h.handler].state, x)
  }

  ghost predicate TargetsMarked(m: Method, d: seq<InstructionData>, i: nat)
    requires i < |d| == |m.code|
  {
    forall t: nat :: t < |d| && Marks(m, i, t) ==> d[t].isTarget
  }

  /** Only instructions still marked as changed have anything left to pass on. */
  ghost predicate Settled(m: Method, d: seq<InstructionData>)
    requires Legal(m) && |d| == |m.code|
  {
    forall i: nat :: i < |d| && d[i].state.Visited() && !d[i].changed ==> FlowsTo(m, d, i) && TargetsMarked(m, d, i)
  }
}
