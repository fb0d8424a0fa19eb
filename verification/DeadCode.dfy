/** Rewriting a method that has no subroutines: its unreached instructions are deleted. */
module DeadCode {
  import opened Wrappers
  import opened Subroutines
  import opened InlinedList
  import opened InlineJsr
  import opened NewCode
  import opened EmittedCode
  import opened ExceptionTable
  import opened InlineRuns
  import opened CodeOffsets
  import Flow
  import Dataflow
  import MergeInto

  /** No instruction that is reached is in a subroutine, or calls one. */
  predicate Flat(m: Code)
    requires Sized(m)
  {
    forall i :: 0 <= i < |m.ops| && m.reached[i] ==>
      m.chains[i] == [] && !m.ops[i].Jsr? && !m.ops[i].Ret? && !m.ops[i].StoreReturn?
  }

  // ---------- from the analysis to the rewriter ----------

  function ToOp(op: Flow.Opcode): Op {
    match op
    case Next => Plain
    case InvokeInit => Plain
    case If(t) => Op.If(t)
    case Goto(t) => Op.Goto(t)
    case Exit => Op.Exit
    case Switch(ts) => Op.Switch(ts)
  }

  function ToCatch(h: Flow.Handler): Catch {
    Catch(h.start, h.end, h.handler, 0)
  }

  /** What the rewriter is given once the analysis is done. `kinds` are the types that handlers catch. */
  function Analysed(f: Flow.Method, d: seq<MergeInto.InstructionData>, lengths: seq<nat>, kinds: seq<nat>): Code
    requires |d| == |f.code| && |kinds| == |f.handlers|
  {
    Code(seq(|f.code|, (i: nat) requires i < |f.code| => ToOp(f.code[i])), lengths,
         seq(|d|, (i: nat) requires i < |d| => Flow.REACHED in d[i].state.orFlags),
         seq(|d|, (i: nat) requires i < |d| => []),
         seq(|f.handlers|, (k: nat) requires k < |f.handlers| => ToCatch(f.handlers[k]).(kind := kinds[k])),
         seq(|d|, (i: nat) requires i < |d| => false))
  }

  lemma ReachedOnward(f: Flow.Method, d: seq<MergeInto.InstructionData>, lengths: seq<nat>, kinds: seq<nat>, i: nat,
                      t: nat)
    requires Flow.Legal(f) && |d| == |f.code| == |lengths| && |kinds| == |f.handlers| && Dataflow.Fixpoint(f, d)
    requires i < |f.code| && t < |f.code| && Analysed(f, d, lengths, kinds).reached[i] && Flow.Edge(f, i, t)
    ensures InPlace(Analysed(f, d, lengths, kinds), i, t) && Outward(Analysed(f, d, lengths, kinds), i, t)
  {
    hide Flow.Legal, Flow.Edge, Flow.Reachable, Dataflow.Entered, Flow.FlowsTo, Flow.Marks;
    Flow.ReachableStep(f, i, t);
  }

  /** No handler's range ends where the code does. */
  predicate RangesInside(f: Flow.Method) {
    forall k :: 0 <= k < |f.handlers| ==> f.handlers[k].start < |f.code| && f.handlers[k].end < |f.code|
  }

  /** After the analysis, every successor of a reached instruction is reached, which is what the
      rewriter needs. */
  lemma AnalysedIsStructured(f: Flow.Method, d: seq<MergeInto.InstructionData>, lengths: seq<nat>, kinds: seq<nat>)
    requires Flow.Legal(f) && |d| == |f.code| == |lengths| && |kinds| == |f.handlers| && Dataflow.Fixpoint(f, d)
    requires (forall i :: 0 <= i < |lengths| ==> lengths[i] > 0) && RangesInside(f)
    ensures Structured(Analysed(f, d, lengths, kinds)) && Flat(Analysed(f, d, lengths, kinds))
    ensures AddressesStored(Analysed(f, d, lengths, kinds))
  {
    hide Flow.Reachable, Dataflow.Fixpoint, StructuredAt, Flow.Successors, Flow.Targets;
    var m := Analysed(f, d, lengths, kinds);
    EntryReached(f, d);
    forall i | 0 <= i < |m.ops| && m.reached[i]
      ensures StructuredAt(m, i)
    {
      AnalysedAt(f, d, lengths, kinds, i);
    }
  }

  lemma EntryReached(f: Flow.Method, d: seq<MergeInto.InstructionData>)
    requires Flow.Legal(f) && |d| == |f.code| && Dataflow.Fixpoint(f, d)
    ensures 0 < |d| && Flow.REACHED in d[0].state.orFlags
  {
    hide Flow.Reachable, Dataflow.Entered, Flow.FlowsTo, Flow.Marks;
    Flow.ReachableEntry(f);
  }

  lemma AnalysedAt(f: Flow.Method, d: seq<MergeInto.InstructionData>, lengths: seq<nat>, kinds: seq<nat>, i: nat)
    requires Flow.Legal(f) && |d| == |f.code| == |lengths| && |kinds| == |f.handlers| && Dataflow.Fixpoint(f, d)
    requires i < |f.code| && Analysed(f, d, lengths, kinds).reached[i]
    ensures StructuredAt(Analysed(f, d, lengths, kinds), i)
  {
    hide Dataflow.Fixpoint, InPlace, Outward;
    var m := Analysed(f, d, lengths, kinds);
    forall k | 0 <= k < |Flow.Successors(f, i)|
      ensures InPlace(m, i, Flow.Successors(f, i)[k]) && Outward(m, i, Flow.Successors(f, i)[k])
    {
      ReachedOnward(f, d, lengths, kinds, i, Flow.Successors(f, i)[k]);
    }
    forall k | 0 <= k < |m.handlers| && m.handlers[k].Protects(i)
      ensures Outward(m, i, m.handlers[k].handler)
    {
      assert f.handlers[k].Protects(i);
      ReachedOnward(f, d, lengths, kinds, i, f.handlers[k].handler);
    }
    SuccessorList(f, i);
    match f.code[i] {
      case Switch(ts) =>
        forall k | 0 <= k < |ts|
          ensures Outward(m, i, ts[k])
        {
          assert ts[k] == Flow.Successors(f, i)[k];
        }
      case _ =>
    }
  }

  lemma SuccessorList(f: Flow.Method, i: nat)
    requires i < |f.code|
    ensures var s := Flow.Successors(f, i);
            && (f.code[i].Next? || f.code[i].InvokeInit? ==> |s| == 1 && s[0] == i + 1)
            && (f.code[i].If? ==> |s| == 2 && s[0] == i + 1 && s[1] == f.code[i].target)
            && (f.code[i].Goto? ==> |s| == 1 && s[0] == f.code[i].target)
            && (f.code[i].Switch? ==> s == f.code[i].targets)
  {}

  // ---------- only unreached instructions are dropped ----------

  lemma {:induction false} FirstInumber(m: Code, s: Subr, i: nat, base: nat)
    requires Sized(m) && i <= |m.ops|
    ensures var b := Body(m, s, i, base); b != [] ==> i <= b[0].inumber < |m.ops|
    decreases |m.ops| - i
  {
    if i < |m.ops| && !Included(m, s, i) {
      FirstInumber(m, s, i + 1, base);
    }
  }

  lemma FlatBuilt(m: Code)
    requires Structured(m) && Flat(m)
    ensures Built(m, Refs(m), map[])
  {
    hide Body, Structured, Included, StructuredAt;
    FlatSized(m);
    var refs := Refs(m);
    forall p | 0 <= p < |refs|
      ensures refs[p].inumber < |m.ops| && !Calls(m, refs[p].inumber)
    {
      Standing(m, refs, p);
      assert m.reached[refs[p].inumber] by { IncludedReached(m, refs[p].sub, refs[p].inumber); }
    }
  }

  lemma FlatSized(m: Code)
    requires Structured(m)
    ensures Sized(m)
  {}

  lemma IncludedReached(m: Code, s: Subr, i: nat)
    requires Sized(m) && i < |m.ops| && Included(m, s, i)
    ensures m.reached[i] && m.chains[i] == Chain(s)
  {}

  /** The list holds the reached instructions, in order, and none of them is altered. */
  lemma FlatList(m: Code, p: nat)
    requires Structured(m) && Flat(m) && p < |Refs(m)|
    ensures var r := Refs(m)[p];
            r.inumber < |m.ops| && m.reached[r.inumber] && r.sub == Top && r.flag == Normal
            && (p + 1 < |Refs(m)| ==> r.inumber < Refs(m)[p + 1].inumber)
  {
    hide Body, Inner, Refs, OneRet, StructuredAt, EndsKnown, Segment, Included, Chain, Depth;
    FlatBuilt(m);
    var refs := Refs(m);
    BuiltAt(m, refs, map[], p);
    FlagOfCopy(m, refs, map[], p);
    Standing(m, refs, p);
    ChainEmpty(refs[p].sub);
    SegmentParts(m, refs, Top, refs[p].inumber, p);
    FlatEnd(m);
    var i := refs[p].inumber;
    hide FlagOf;
    if p + 1 < |refs| {
      FirstInumber(m, Top, i + 1, p + 1);
      SegmentHead(m, refs, Top, i + 1, p + 1);
    }
  }

  lemma ChainEmpty(s: Subr)
    requires Chain(s) == []
    ensures s == Top
  {}

  lemma FlatEnd(m: Code)
    requires Sized(m)
    ensures End(m, Top, 0, 0) == |Refs(m)|
  {
    hide Body;
  }

  lemma SegmentHead(m: Code, refs: seq<CodeRef>, s: Subr, i: nat, base: nat)
    requires Sized(m) && i <= |m.ops| && Segment(m, refs, s, i, base) && base < End(m, s, i, base)
    ensures base < |refs| && Body(m, s, i, base) != [] && refs[base] == Body(m, s, i, base)[0]
  {
    hide Body;
    assert refs[base..End(m, s, i, base)][0] == refs[base];
  }

  // ---------- distances never grow ----------

  predicate SwitchFree(m: Code)
    requires Sized(m)
  {
    forall i :: 0 <= i < |m.ops| && m.reached[i] ==> !m.ops[i].Switch?
  }

  lemma {:induction false} GapShrinks(m: Code, p: nat, q: nat)
    requires Structured(m) && Flat(m) && SwitchFree(m) && p <= q < |Refs(m)|
    ensures Numbered(m, Refs(m))
    ensures var refs := Refs(m);
            && refs[p].inumber <= refs[q].inumber
            && 0 <= Offset(m, refs, q) - Offset(m, refs, p)
               <= OldOffset(m, refs[q].inumber) - OldOffset(m, refs[p].inumber)
    decreases q
  {
    hide Body, Refs, OneRet, Structured, EndsKnown;
    FlatBuilt(m);
    if p < q {
      var refs := Refs(m);
      GapShrinks(m, p, q - 1);
      FlatList(m, q - 1);
      OldOffsetMonotone(m, refs[q - 1].inumber + 1, refs[q].inumber);
      assert Offset(m, refs, q) == Advance(m, refs[q - 1], Offset(m, refs, q - 1));
    }
  }

  /** A branch never has farther to go in the new code, in either direction. */
  lemma DistancesShrink(m: Code, p: nat, q: nat)
    requires Structured(m) && Flat(m) && SwitchFree(m) && p < |Refs(m)| && q < |Refs(m)|
    ensures Numbered(m, Refs(m))
    ensures var refs := Refs(m);
            var was := OldOffset(m, refs[q].inumber) - OldOffset(m, refs[p].inumber);
            var now := Offset(m, refs, q) - Offset(m, refs, p);
            (p <= q ==> 0 <= now <= was) && (q <= p ==> was <= now <= 0)
  {
    hide Body, Refs, Structured, Offset, OldOffset;
    if p <= q {
      GapShrinks(m, p, q);
    }
    if q <= p {
      GapShrinks(m, q, p);
    }
  }

  /** The displacements of the old code fit in two bytes. */
  predicate OldJumpsFit(m: Code)
    requires Sized(m)
  {
    forall i :: 0 <= i < |m.ops| && m.reached[i] && (m.ops[i].If? || m.ops[i].Goto?) && m.ops[i].target < |m.ops| ==>
      -32768 <= OldOffset(m, m.ops[i].target) - OldOffset(m, i) < 32768
  }

  lemma FlatJumpsFit(m: Code)
    requires Structured(m) && Flat(m) && SwitchFree(m) && OldJumpsFit(m)
    ensures AllResolvable(m, Refs(m), map[]) && ShortJumpsFit(m, Refs(m), map[])
  {
    hide Body, Refs, OneRet, EndsKnown, Offset, OldOffset, TargetPlace, Resolvable;
    var refs := Refs(m);
    FlatBuilt(m);
    BuiltResolvable(m, refs, map[]);
    forall p | 0 <= p < |refs| && ShortJump(m, refs, map[], p).Some?
      ensures -32768 <= ShortJump(m, refs, map[], p).value < 32768
    {
      FlatJumpFits(m, p);
    }
  }

  lemma FlatJumpFits(m: Code, p: nat)
    requires Structured(m) && Flat(m) && SwitchFree(m) && OldJumpsFit(m) && p < |Refs(m)|
    requires AllResolvable(m, Refs(m), map[]) && ShortJump(m, Refs(m), map[], p).Some?
    ensures -32768 <= ShortJump(m, Refs(m), map[], p).value < 32768
  {
    hide Body, Refs, OneRet, EndsKnown, Offset, OldOffset, TargetPlace, Structured;
    var refs := Refs(m);
    FlatBuilt(m);
    FlatList(m, p);
    BuiltAt(m, refs, map[], p);
    var t := m.ops[refs[p].inumber].target;
    var q := OutwardFound(m, refs, map[], p, t);
    DistancesShrink(m, p, q);
  }

  // ---------- what may follow in the new code ----------

  /** Control may pass from offset `pc` to offset `t` of the new code. */
  predicate NewEdge(m: Code, code: seq<NewInstr>, table: seq<CatchFrame>, pc: nat, t: nat) {
    var instr := Fetch(code, pc);
    instr.Some? && (InstrGoes(m, instr.value, t) || HandlerGoes(table, pc, t))
  }

  predicate InstrGoes(m: Code, instr: NewInstr, t: nat) {
    match instr.op
    case Copied(i) => i < |m.ops| && m.ops[i].Plain? && t == instr.pc + instr.size
    case Branching(i, displacement) =>
      t == instr.pc + displacement || (i < |m.ops| && m.ops[i].If? && t == instr.pc + instr.size)
    case PlainGoto(displacement) => t == instr.pc + displacement
    case Switching(_, displacements) => exists k :: 0 <= k < |displacements| && t == instr.pc + displacements[k]
  }

  predicate HandlerGoes(table: seq<CatchFrame>, pc: nat, t: nat) {
    exists j :: 0 <= j < |table| && Spans(table[j], pc) && table[j].handler == t
  }

  /** Each old handler has an entry for every copy that it protects. */
  lemma {:induction false} HandlerEntry(m: Code, refs: seq<CodeRef>, next: map<nat, nat>, table: seq<CatchFrame>,
                                        count: nat, k: nat, p: nat, q: nat)
    requires Built(m, refs, next) && k < count <= |m.handlers| && TableFor(m, refs, table, count)
    requires p < |refs| && refs[p].flag != Skipped && m.handlers[k].Protects(refs[p].inumber)
    requires Eligible(refs, refs[p].sub, m.handlers[k].handler, q)
    requires forall r :: Eligible(refs, refs[p].sub, m.handlers[k].handler, r) ==> r == q
    ensures HandlerGoes(table, Offset(m, refs, p), Offset(m, refs, q))
    decreases count
  {
    hide Refs, Structured, EndsKnown, Offset, Places, Encloses, BlockFor;
    var n: nat :| n <= |table| && TableFor(m, refs, table[..n], count - 1)
      && BlockFor(m, refs, table[n..], count - 1, Places(refs, m.handlers[count - 1].handler));
    if k < count - 1 {
      HandlerEntry(m, refs, next, table[..n], count - 1, k, p, q);
      hide Spans;
      var j :| 0 <= j < n && Spans(table[..n][j], Offset(m, refs, p)) && table[..n][j].handler == Offset(m, refs, q);
      assert table[j] == table[..n][j];
    } else {
      BlockEntry(m, refs, table[n..], k, p, q);
      hide Spans;
      var j :| 0 <= j < |table[n..]| && Spans(table[n..][j], Offset(m, refs, p))
          && table[n..][j].handler == Offset(m, refs, q);
      assert table[n + j] == table[n..][j];
    }
  }

  lemma BlockEntry(m: Code, refs: seq<CodeRef>, b: seq<CatchFrame>, k: nat, p: nat, q: nat)
    requires Numbered(m, refs) && k < |m.handlers| && BlockFor(m, refs, b, k, Places(refs, m.handlers[k].handler))
    requires p < |refs| && refs[p].flag != Skipped && m.handlers[k].Protects(refs[p].inumber)
    requires Eligible(refs, refs[p].sub, m.handlers[k].handler, q)
    requires forall r :: Eligible(refs, refs[p].sub, m.handlers[k].handler, r) ==> r == q
    ensures HandlerGoes(b, Offset(m, refs, p), Offset(m, refs, q))
  {
    hide Offset, Places, Encloses;
    var places := Places(refs, m.handlers[k].handler);
    assert BlockAt(m, refs, b, k, places, p);
    assert q in places;
    var i :| 0 <= i < |places| && places[i] == q;
    assert Match(m, refs, k, places[i], p);
    var j :| 0 <= j < |b| && Spans(b[j], Offset(m, refs, p));
    assert LeadsAmong(m, refs, b[j], k, places, p);
    var h :| 0 <= h < |places| && Match(m, refs, k, places[h], p) && b[j].handler == Offset(m, refs, places[h]);
    assert Eligible(refs, refs[p].sub, m.handlers[k].handler, places[h]);
  }

  /** What may follow a copy in the old code may follow it in the new. */
  lemma EdgeMaps(f: Flow.Method, d: seq<MergeInto.InstructionData>, lengths: seq<nat>, kinds: seq<nat>, m: Code,
                 table: seq<CatchFrame>, p: nat, t: nat) returns (q: nat)
    requires Flow.Legal(f) && |d| == |f.code| == |lengths| && |kinds| == |f.handlers|
             && m == Analysed(f, d, lengths, kinds)
    requires Structured(m) && Flat(m) && Generated(m, Refs(m), map[], table)
    requires p < |Refs(m)| && Refs(m)[p].inumber < |f.code| && t < |f.code| && Flow.Edge(f, Refs(m)[p].inumber, t)
    ensures q < |Refs(m)| && Refs(m)[q].inumber == t
    ensures NewEdge(m, Emitted(m, Refs(m), map[], |Refs(m)|), table, Offset(m, Refs(m), p), Offset(m, Refs(m), q))
  {
    hide Refs, Structured, EndsKnown, Offset, TargetPlace, Emitted, TableFor, Resolvable, Instr, InstrGoes;
    hide HandlerGoes, Flow.Legal, Encloses;
    var refs := Refs(m);
    var i := refs[p].inumber;
    FlatList(m, p);
    BuiltAt(m, refs, map[], p);
    PositiveLengths(m);
    FetchEmitted(m, refs, map[], p, |refs|);
    if Flow.HandledBy(f, i, t) {
      var k :| 0 <= k < |f.handlers| && f.handlers[k].Protects(i) && f.handlers[k].handler == t;
      assert m.handlers[k].Protects(i);
      q := OutwardFound(m, refs, map[], p, t);
      HandlerEntry(m, refs, map[], table, |m.handlers|, k, p, q);
    } else {
      SuccessorList(f, i);
      q := InstrEdge(m, refs, p, t) by { assert Successor(m, i, t); }
    }
  }

  lemma PositiveLengths(m: Code)
    requires Structured(m)
    ensures forall i :: 0 <= i < |m.lengths| ==> m.lengths[i] > 0
  {}

  predicate Successor(m: Code, i: nat, t: nat)
    requires i < |m.ops|
  {
    match m.ops[i]
    case Plain => t == i + 1
    case If(u) => t == i + 1 || t == u
    case Goto(u) => t == u
    case Switch(ts) => exists k :: 0 <= k < |ts| && ts[k] == t
    case _ => false
  }

  lemma InstrEdge(m: Code, refs: seq<CodeRef>, p: nat, t: nat) returns (q: nat)
    requires Built(m, refs, map[]) && AllResolvable(m, refs, map[]) && ShortJumpsFit(m, refs, map[])
    requires p < |refs| && refs[p].flag != Skipped && Successor(m, refs[p].inumber, t) && refs[p].inumber < |m.ops|
    ensures q < |refs| && refs[q].inumber == t && InstrGoes(m, Instr(m, refs, map[], p), Offset(m, refs, q))
  {
    hide Refs, Structured, EndsKnown, Offset, TargetPlace, Outward, Found, Encloses;
    var i := refs[p].inumber;
    BuiltAt(m, refs, map[], p);
    if t == i + 1 && (m.ops[i].Plain? || m.ops[i].If?) {
      NextCopy(m, refs, p, i);
      q := p + 1;
    } else {
      q := OutwardFound(m, refs, map[], p, t);
      assert Resolvable(m, refs, map[], p);
      if m.ops[i].Switch? {
        var k :| 0 <= k < |m.ops[i].targets| && m.ops[i].targets[k] == t;
        var ds := Displacements(m, refs, refs[p].sub, m.ops[i].targets, Offset(m, refs, p));
        assert ds[k] == Offset(m, refs, q) - Offset(m, refs, p);
      }
    }
  }

  lemma FlatUnique(m: Code, p: nat, q: nat)
    requires Structured(m) && Flat(m) && p < |Refs(m)| && q < |Refs(m)| && Refs(m)[p].inumber == Refs(m)[q].inumber
    ensures p == q
  {
    hide Refs, StructuredAt, OneRet;
    FlatList(m, p);
    FlatList(m, q);
    CopiesUnique(m, Refs(m), p, q);
  }
}
