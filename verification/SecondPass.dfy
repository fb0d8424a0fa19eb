/** Verifying the rewritten method: the second analysis reaches every instruction, so that nothing is
    rewritten again. */
module SecondPass {
  import opened Wrappers
  import opened Subroutines
  import opened InlinedList
  import opened InlineJsr
  import opened NewCode
  import opened EmittedCode
  import opened CodeOffsets
  import opened ExceptionTable
  import opened InlineRuns
  import opened DeadCode
  import opened MergeInto
  import Flow
  import Dataflow
  import MergeStates
  import TypeMerge

  // ---------- reading the new code ----------

  /** The number of the instruction at an offset; at the end of the code, the number after the last. */
  function NumberOf(code: seq<NewInstr>, pc: int): (k: nat)
    ensures k <= |code|
  {
    if code == [] then 0
    else if code[0].pc == pc then 0
    else 1 + NumberOf(code[1..], pc)
  }

  /** The opcode that was copied for an instruction, with the operands that were written. */
  function ReadOp(f: Flow.Method, code: seq<NewInstr>, instr: NewInstr): Flow.Opcode {
    match instr.op
    case Copied(i) => if i < |f.code| then f.code[i] else Flow.Exit
    case Branching(i, displacement) =>
      var t := NumberOf(code, instr.pc + displacement);
      if i < |f.code| && f.code[i].If? then Flow.If(t) else Flow.Goto(t)
    case PlainGoto(displacement) => Flow.Goto(NumberOf(code, instr.pc + displacement))
    case Switching(_, displacements) =>
      Flow.Switch(seq(|displacements|, (k: nat) requires k < |displacements| =>
        NumberOf(code, instr.pc + displacements[k])))
  }

  /** The new method, as the second pass finds it. What instructions do to types, the heights of
      stacks and what handlers start with are not needed here. */
  function Reread(f: Flow.Method, code: seq<NewInstr>, table: seq<CatchFrame>,
                  step: (nat, MergeStates.State) -> Flow.Step,
                  shape: seq<(nat, nat)>, stacks: seq<MergeStates.StackInfo>): (g: Flow.Method)
    requires |shape| == |code| && |stacks| == |table|
    ensures |g.code| == |code| && |g.handlers| == |table|
  {
    Flow.Method(f.obj, f.depth, seq(|code|, (k: nat) requires k < |code| => ReadOp(f, code, code[k])), step,
                seq(|table|, (j: nat) requires j < |table| =>
                  Flow.Handler(NumberOf(code, table[j].start), NumberOf(code, table[j].end),
                               NumberOf(code, table[j].handler), stacks[j])),
                shape, f.arguments, f.isConstructor)
  }

  // ---------- numbers in the new code ----------

  /** Without subroutines, no copy is dropped: instruction `p` of the new code is the copy at place `p`. */
  lemma {:induction false} EmittedInOrder(m: Code, count: nat)
    requires Structured(m) && Flat(m) && AllResolvable(m, Refs(m), map[]) && count <= |Refs(m)|
    ensures var code := Emitted(m, Refs(m), map[], count);
            |code| == count && forall p :: 0 <= p < count ==>
              Refs(m)[p].flag == Normal && code[p] == Instr(m, Refs(m), map[], p)
    decreases count
  {
    hide Refs, Structured, Resolvable, Instr, Flat;
    if count > 0 {
      EmittedInOrder(m, count - 1);
      FlatList(m, count - 1);
    }
  }

  lemma KeptStrict(m: Code, p: nat, q: nat)
    requires Structured(m) && Flat(m) && p < q <= |Refs(m)|
    ensures Numbered(m, Refs(m)) && Offset(m, Refs(m), p) < Offset(m, Refs(m), q)
  {
    hide Refs, OneRet, StructuredAt, EndsKnown, Offset, Flat;
    FlatBuilt(m);
    FlatList(m, p);
    OffsetStrict(m, Refs(m), p, q);
  }

  lemma {:induction false} NumberFound(code: seq<NewInstr>, pc: int, k: nat)
    requires k <= |code| && (k < |code| ==> code[k].pc == pc) && forall i :: 0 <= i < k ==> code[i].pc != pc
    ensures NumberOf(code, pc) == k
  {
    if k > 0 {
      NumberFound(code[1..], pc, k - 1);
    }
  }

  /** The number at the offset of a copy is its place. */
  lemma NumberOfOffset(m: Code, q: nat)
    requires Structured(m) && Flat(m) && AllResolvable(m, Refs(m), map[]) && q <= |Refs(m)|
    ensures NumberOf(Emitted(m, Refs(m), map[], |Refs(m)|), Offset(m, Refs(m), q)) == q
  {
    hide Refs, Structured, Resolvable, Flat, Offset, Emitted, EmittedOp;
    var code := Emitted(m, Refs(m), map[], |Refs(m)|);
    EmittedInOrder(m, |Refs(m)|);
    forall i: nat | i < q
      ensures code[i].pc != Offset(m, Refs(m), q)
    {
      KeptStrict(m, i, q);
    }
    NumberFound(code, Offset(m, Refs(m), q), q);
  }

  // ---------- edges of the new method ----------

  /** Whatever may follow in the new code may follow in the method that the second pass finds. */
  lemma EdgeRead(f: Flow.Method, d: seq<InstructionData>, lengths: seq<nat>, kinds: seq<nat>, m: Code,
                 table: seq<CatchFrame>, g: Flow.Method, p: nat, q: nat)
    requires Rereading(f, d, lengths, kinds, m, table, g) && p < |Refs(m)| && q < |Refs(m)|
    requires NewEdge(m, Emitted(m, Refs(m), map[], |Refs(m)|), table, Offset(m, Refs(m), p), Offset(m, Refs(m), q))
    ensures p < |g.code| && Flow.Edge(g, p, q)
  {
    hide Refs, Structured, EndsKnown, Offset, Emitted, TableFor, Resolvable, ShortJumpsFit, NumberOf, Instr;
    hide OnOffsets, Flat;
    hide InstrGoes, HandlerGoes, Analysed, Flow.HandledBy, Flow.Successors, Reread;
    var refs := Refs(m);
    var code := Emitted(m, refs, map[], |refs|);
    EmittedInOrder(m, |refs|);
    PositiveLengths(m);
    FetchEmitted(m, refs, map[], p, |refs|);
    RereadSize(f, d, lengths, kinds, m, table, g);
    if HandlerGoes(table, Offset(m, refs, p), Offset(m, refs, q)) {
      HandlerRead(f, d, lengths, kinds, m, table, g, p, q);
    } else {
      SuccessorRead(f, d, lengths, kinds, m, table, g, p, q);
    }
  }

  /** The setting: `g` is what the second pass finds after the rewriting of `f`. */
  ghost predicate Rereading(f: Flow.Method, d: seq<InstructionData>, lengths: seq<nat>, kinds: seq<nat>, m: Code,
                            table: seq<CatchFrame>, g: Flow.Method) {
    && Flow.Legal(f) && |d| == |f.code| == |lengths| && |kinds| == |f.handlers| && m == Analysed(f, d, lengths, kinds)
    && Structured(m) && Flat(m) && Generated(m, Refs(m), map[], table) && AllOnOffsets(m, Refs(m), table)
    && |g.shape| == |Emitted(m, Refs(m), map[], |Refs(m)|)| && |g.handlers| == |table|
    && g == Reread(f, Emitted(m, Refs(m), map[], |Refs(m)|), table, g.step, g.shape,
                   seq(|table|, (j: nat) requires j < |g.handlers| => g.handlers[j].stack))
  }

  lemma RereadSize(f: Flow.Method, d: seq<InstructionData>, lengths: seq<nat>, kinds: seq<nat>, m: Code,
                   table: seq<CatchFrame>, g: Flow.Method)
    requires Rereading(f, d, lengths, kinds, m, table, g)
    ensures |g.code| == |Refs(m)| && |g.handlers| == |table|
    ensures AllResolvable(m, Refs(m), map[]) && |Emitted(m, Refs(m), map[], |Refs(m)|)| == |Refs(m)|
    ensures forall p :: 0 <= p < |Refs(m)| ==>
              Refs(m)[p].flag == Normal
              && g.code[p] == ReadOp(f, Emitted(m, Refs(m), map[], |Refs(m)|), Instr(m, Refs(m), map[], p))
  {
    hide Refs, Structured, EndsKnown, Offset, Emitted, TableFor, Resolvable, ShortJumpsFit, Instr, OnOffsets, Flat;
    hide ReadOp;
    EmittedInOrder(m, |Refs(m)|);
  }

  lemma HandlerRead(f: Flow.Method, d: seq<InstructionData>, lengths: seq<nat>, kinds: seq<nat>, m: Code,
                    table: seq<CatchFrame>, g: Flow.Method, p: nat, q: nat)
    requires Rereading(f, d, lengths, kinds, m, table, g) && p < |Refs(m)| && q < |Refs(m)|
    requires HandlerGoes(table, Offset(m, Refs(m), p), Offset(m, Refs(m), q))
    ensures Flow.HandledBy(g, p, q)
  {
    hide Refs, Structured, EndsKnown, Offset, Emitted, TableFor, Resolvable, ShortJumpsFit, NumberOf, Flat, ReadOp;
    hide Analysed;
    var refs := Refs(m);
    var j :| 0 <= j < |table| && Spans(table[j], Offset(m, refs, p)) && table[j].handler == Offset(m, refs, q);
    assert OnOffsets(m, refs, table[j]);
    var s: nat :| s < |refs| && Offset(m, refs, s) == table[j].start;
    var e: nat :| e < |refs| + 1 && Offset(m, refs, e) == table[j].end;
    NumberOfOffset(m, s);
    NumberOfOffset(m, e);
    NumberOfOffset(m, q);
    if p < s {
      KeptStrict(m, p, s);
    }
    if e < p {
      KeptStrict(m, e, p);
    }
    assert g.handlers[j].Protects(p) && g.handlers[j].handler == q;
  }

  lemma SuccessorRead(f: Flow.Method, d: seq<InstructionData>, lengths: seq<nat>, kinds: seq<nat>, m: Code,
                      table: seq<CatchFrame>, g: Flow.Method, p: nat, q: nat)
    requires Rereading(f, d, lengths, kinds, m, table, g) && p < |Refs(m)| && q < |Refs(m)|
    requires AllResolvable(m, Refs(m), map[]) && Refs(m)[p].flag == Normal
    requires InstrGoes(m, Instr(m, Refs(m), map[], p), Offset(m, Refs(m), q))
    ensures p < |g.code| && q in Flow.Successors(g, p)
  {
    hide Refs, Structured, EndsKnown, Offset, Emitted, TableFor, Resolvable, ShortJumpsFit, NumberOf, Flat, OnOffsets;
    hide EmittedOp, Reread;
    var refs := Refs(m);
    RereadSize(f, d, lengths, kinds, m, table, g);
    NumberOfOffset(m, q);
    var instr := Instr(m, refs, map[], p);
    if Offset(m, refs, q) == instr.pc + instr.size {
      SameOffset(m, p + 1, q);
    }
    assert forall i :: 0 <= i < |f.code| ==> m.ops[i] == ToOp(f.code[i]);
    match instr.op {
      case Switching(_, displacements) =>
        var k :| 0 <= k < |displacements| && Offset(m, refs, q) == instr.pc + displacements[k];
        assert Flow.Successors(g, p)[k] == q;
      case Branching(i, displacement) =>
        assert Flow.Successors(g, p)[|Flow.Successors(g, p)| - 1]
               == NumberOf(Emitted(m, refs, map[], |refs|), instr.pc + displacement);
      case _ =>
    }
  }

  lemma SameOffset(m: Code, p: nat, q: nat)
    requires Structured(m) && Flat(m) && p <= |Refs(m)| && q <= |Refs(m)| && Numbered(m, Refs(m))
    requires Offset(m, Refs(m), p) == Offset(m, Refs(m), q)
    ensures p == q
  {
    hide Refs, Structured, Flat, Offset;
    if p < q {
      KeptStrict(m, p, q);
    } else if q < p {
      KeptStrict(m, q, p);
    }
  }

  // ---------- nothing is dead ----------

  lemma {:induction false} PathRead(f: Flow.Method, d: seq<InstructionData>, lengths: seq<nat>, kinds: seq<nat>,
                                    m: Code,
                                    table: seq<CatchFrame>, g: Flow.Method, path: seq<nat>) returns (q: nat)
    requires Rereading(f, d, lengths, kinds, m, table, g) && Flow.Path(f, path)
    ensures q < |Refs(m)| && Refs(m)[q].inumber == path[|path| - 1] && Flow.Reachable(g, q)
    decreases |path|
  {
    hide Refs, Structured, EndsKnown, Offset, Emitted, TableFor, Resolvable, ShortJumpsFit, NewEdge, Flow.Legal;
    hide Flow.Edge, Flow.Reachable;
    hide Reread, OnOffsets, Flat;
    RereadSize(f, d, lengths, kinds, m, table, g);
    if |path| == 1 {
      EntryAt(m, Refs(m), map[], 0);
      q := 0;
      Flow.ReachableEntry(g);
    } else {
      var k := |path| - 1;
      var r := PathRead(f, d, lengths, kinds, m, table, g, path[..k]);
      q := EdgeMaps(f, d, lengths, kinds, m, table, r, path[k]);
      EdgeRead(f, d, lengths, kinds, m, table, g, r, q);
      Flow.ReachableStep(g, r, q);
    }
  }

  lemma ReachedAgain(f: Flow.Method, d: seq<InstructionData>, lengths: seq<nat>, kinds: seq<nat>, m: Code,
                     table: seq<CatchFrame>, g: Flow.Method, p: nat)
    requires Rereading(f, d, lengths, kinds, m, table, g) && Dataflow.Fixpoint(f, d) && p < |Refs(m)|
    ensures Flow.Reachable(g, p)
  {
    hide Refs, Structured, EndsKnown, Offset, Emitted, Generated, Resolvable, Flow.Legal, Flow.Edge, Flow.FlowsTo;
    hide Flow.Marks;
    hide Dataflow.Entered, Reread, OnOffsets, Flat;
    FlatList(m, p);
    assert Flow.Reachable(f, Refs(m)[p].inumber);
    var path: seq<nat> :| Flow.Path(f, path) && path[|path| - 1] == Refs(m)[p].inumber;
    var q := PathRead(f, d, lengths, kinds, m, table, g, path);
    FlatUnique(m, p, q);
  }

  /** Any fixpoint that the second analysis ends in has every instruction reached. */
  lemma AllReached(f: Flow.Method, d: seq<InstructionData>, lengths: seq<nat>, kinds: seq<nat>, m: Code,
                   table: seq<CatchFrame>, g: Flow.Method, e: seq<InstructionData>)
    requires Rereading(f, d, lengths, kinds, m, table, g) && Dataflow.Fixpoint(f, d)
    requires Flow.Legal(g) && |e| == |g.code| && Dataflow.Fixpoint(g, e)
    ensures forall p :: 0 <= p < |e| ==> Flow.REACHED in e[p].state.orFlags
  {
    RereadSize(f, d, lengths, kinds, m, table, g);
    hide Rereading, Refs, Flow.Legal, Flow.FlowsTo, Flow.Marks, Flow.Reachable, Dataflow.Entered;
    forall p: nat | p < |e|
      ensures Flow.Reachable(g, p)
    {
      ReachedAgain(f, d, lengths, kinds, m, table, g, p);
    }
  }

  // ---------- the new method is legal ----------

  /** A branch of the old method has its target in the new one. */
  lemma TargetInside(f: Flow.Method, d: seq<InstructionData>, lengths: seq<nat>, kinds: seq<nat>, m: Code,
                     table: seq<CatchFrame>, g: Flow.Method, p: nat, t: nat)
    requires Rereading(f, d, lengths, kinds, m, table, g) && p < |Refs(m)| && Outward(m, Refs(m)[p].inumber, t)
    ensures Found(m, Refs(m), Refs(m)[p].sub, t)
    ensures var r := Displacement(m, Refs(m), Refs(m)[p].sub, t, Offset(m, Refs(m), p));
            NumberOf(Emitted(m, Refs(m), map[], |Refs(m)|), Offset(m, Refs(m), p) + r) < |Refs(m)|
  {
    hide Refs, Structured, EndsKnown, Offset, Emitted, TableFor, Resolvable, ShortJumpsFit, NumberOf, Flat, OnOffsets;
    hide Reread, Analysed;
    var q := OutwardFound(m, Refs(m), map[], p, t);
    NumberOfOffset(m, q);
  }

  lemma SuccessorsInside(f: Flow.Method, d: seq<InstructionData>, lengths: seq<nat>, kinds: seq<nat>, m: Code,
                         table: seq<CatchFrame>, g: Flow.Method, p: nat)
    requires Rereading(f, d, lengths, kinds, m, table, g) && p < |Refs(m)|
    ensures p < |g.code|
    ensures forall k :: 0 <= k < |Flow.Successors(g, p)| ==> Flow.Successors(g, p)[k] < |g.code|
    ensures forall k :: 0 <= k < |Flow.Targets(g, p)| ==> Flow.Targets(g, p)[k] < |g.code|
  {
    hide Refs, Structured, EndsKnown, Offset, Emitted, TableFor, NumberOf, Flat, OnOffsets, Reread, InPlace, Outward;
    hide Displacement, Found;
    var refs := Refs(m);
    RereadSize(f, d, lengths, kinds, m, table, g);
    BuiltAt(m, refs, map[], p);
    FlatList(m, p);
    var i := refs[p].inumber;
    assert m.ops[i] == ToOp(f.code[i]);
    assert Resolvable(m, refs, map[], p);
    var instr := Instr(m, refs, map[], p);
    match m.ops[i] {
      case Plain => NextCopy(m, refs, p, i) by { assert InPlace(m, i, i + 1); PlaceInside(m, i); }
      case If(t) =>
        NextCopy(m, refs, p, i) by { assert InPlace(m, i, i + 1); PlaceInside(m, i); }
        TargetInside(f, d, lengths, kinds, m, table, g, p, t);
      case Goto(t) => TargetInside(f, d, lengths, kinds, m, table, g, p, t);
      case Switch(ts) =>
        forall k | 0 <= k < |ts|
          ensures NumberOf(Emitted(m, refs, map[], |refs|), instr.pc + instr.op.displacements[k]) < |refs|
        {
          TargetInside(f, d, lengths, kinds, m, table, g, p, ts[k]);
          DisplacementAt(m, refs, refs[p].sub, ts, Offset(m, refs, p), k);
        }
      case _ =>
    }
  }

  lemma PlaceInside(m: Code, i: nat)
    requires Structured(m) && Flat(m) && i < |m.ops| && m.reached[i] && InPlace(m, i, i + 1)
    ensures i + 1 < |m.ops| && Included(m, Top, i + 1)
  {}

  lemma {:induction false} DisplacementAt(m: Code, refs: seq<CodeRef>, s: Subr, ts: seq<nat>, pc: nat, k: nat)
    requires Numbered(m, refs) && k < |ts| && forall i :: 0 <= i < |ts| ==> Found(m, refs, s, ts[i])
    ensures Displacements(m, refs, s, ts, pc)[k] == Displacement(m, refs, s, ts[k], pc)
  {}

  lemma RereadSame(f: Flow.Method, d: seq<InstructionData>, lengths: seq<nat>, kinds: seq<nat>, m: Code,
                   table: seq<CatchFrame>, g: Flow.Method)
    requires Rereading(f, d, lengths, kinds, m, table, g)
    ensures Sized(m) && |g.code| == |Refs(m)| == |g.shape| && 0 < |g.code| && g.obj == f.obj
            && TypeMerge.KnownObject(f.obj)
  {
    hide Refs, Structured, EndsKnown, Offset, Emitted, TableFor, Resolvable, ShortJumpsFit, NumberOf, Flat, ReadOp;
    hide Analysed, OnOffsets;
    RereadSize(f, d, lengths, kinds, m, table, g);
    EntryAt(m, Refs(m), map[], 0);
  }

  /** The second pass starts from a legal method. */
  lemma RereadLegal(f: Flow.Method, d: seq<InstructionData>, lengths: seq<nat>, kinds: seq<nat>, m: Code,
                    table: seq<CatchFrame>, g: Flow.Method)
    requires Rereading(f, d, lengths, kinds, m, table, g)
    ensures Flow.Legal(g)
  {
    RereadSame(f, d, lengths, kinds, m, table, g);
    hide Refs, Rereading, Flow.Successors, Flow.Targets;
    forall p: nat | p < |g.code|
      ensures forall k :: 0 <= k < |Flow.Successors(g, p)| ==> Flow.Successors(g, p)[k] < |g.code|
      ensures forall k :: 0 <= k < |Flow.Targets(g, p)| ==> Flow.Targets(g, p)[k] < |g.code|
    {
      SuccessorsInside(f, d, lengths, kinds, m, table, g, p);
    }
    forall j | 0 <= j < |g.handlers|
      ensures g.handlers[j].handler < |g.code|
    {
      HandlerInside(f, d, lengths, kinds, m, table, g, j);
    }
  }

  lemma HandlerInside(f: Flow.Method, d: seq<InstructionData>, lengths: seq<nat>, kinds: seq<nat>, m: Code,
                      table: seq<CatchFrame>, g: Flow.Method, j: nat)
    requires Rereading(f, d, lengths, kinds, m, table, g) && j < |g.handlers|
    ensures g.handlers[j].handler < |Refs(m)|
  {
    hide Refs, Structured, EndsKnown, Offset, Emitted, TableFor, Resolvable, ShortJumpsFit, NumberOf, Flat, ReadOp;
    hide Analysed;
    assert OnOffsets(m, Refs(m), table[j]);
    var h: nat :| h < |Refs(m)| && Offset(m, Refs(m), h) == table[j].handler;
    NumberOfOffset(m, h);
  }

  // ---------- the decision to go on ----------

  /** Counts the instructions that are not reached. */
  method CountDead(idata: array<InstructionData>) returns (deadCount: nat)
    ensures deadCount == 0 <==> forall p :: 0 <= p < idata.Length ==> Flow.REACHED in idata[p].state.orFlags
  {
    deadCount := 0;
    var inumber := 0;
    while inumber < idata.Length
      invariant inumber <= idata.Length
      invariant deadCount == 0 <==> forall p :: 0 <= p < inumber ==> Flow.REACHED in idata[p].state.orFlags
    {
      if Flow.REACHED !in idata[inumber].state.orFlags {
        deadCount := deadCount + 1;
      }
      inumber := inumber + 1;
    }
  }

  /** The second pass over a method without subroutines: nothing is dead, so nothing is rewritten again. */
  method VerifyAgain(f: Flow.Method, ghost d: seq<InstructionData>, ghost lengths: seq<nat>, ghost kinds: seq<nat>,
                     ghost m: Code,
                     ghost table: seq<CatchFrame>, g: Flow.Method, idata: array<InstructionData>)
                         returns (deadCount: nat)
    requires Rereading(f, d, lengths, kinds, m, table, g) && Dataflow.Fixpoint(f, d)
    requires Flow.WellFormed(g) && idata.Length == |g.code|
    modifies idata
    ensures Dataflow.Fixpoint(g, idata[..]) && deadCount == 0
  {
    hide Rereading, Dataflow.Fixpoint, Flow.Legal;
    Dataflow.Analyse(g, idata);
    deadCount := CountDead(idata);
    AllReached(f, d, lengths, kinds, m, table, g, idata[..]);
  }
}
