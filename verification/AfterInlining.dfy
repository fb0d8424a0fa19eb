/** The pass after inlining: whatever subroutines a method had, what is written for it is read as a legal
    method without any. */
module AfterInlining {
  import opened Wrappers
  import opened Subroutines
  import opened InlinedList
  import opened InlineJsr
  import opened NewCode
  import opened EmittedCode
  import opened CodeOffsets
  import opened ExceptionTable
  import opened InlineRuns
  import opened SecondPass
  import Flow
  import ClassTree
  import MergeStates
  import TypeMerge

  // ---------- reading the new code ----------

  /** The opcode that was written, with its operands; it may go on as the copied instruction did. */
  function ReadBack(m: Code, code: seq<NewInstr>, instr: NewInstr): Flow.Opcode {
    match instr.op
    case Copied(i) => if i < |m.ops| && m.ops[i].Plain? then Flow.Next else Flow.Exit
    case Branching(i, displacement) =>
      var t := NumberOf(code, instr.pc + displacement);
      if i < |m.ops| && m.ops[i].If? then Flow.If(t) else Flow.Goto(t)
    case PlainGoto(displacement) => Flow.Goto(NumberOf(code, instr.pc + displacement))
    case Switching(_, displacements) =>
      Flow.Switch(seq(|displacements|, (k: nat) requires k < |displacements| =>
        NumberOf(code, instr.pc + displacements[k])))
  }

  /** The method that the next pass analyses. */
  function NextMethod(m: Code, code: seq<NewInstr>, table: seq<CatchFrame>, obj: ClassTree.ClassClass, depth: nat,
                      step: (nat, MergeStates.State) -> Flow.Step, shape: seq<(nat, nat)>,
                      stacks: seq<MergeStates.StackInfo>,
                      arguments: seq<TypeMerge.FullInfo>, isConstructor: bool): (g: Flow.Method)
    requires |shape| == |code| && |stacks| == |table|
    ensures |g.code| == |code| && |g.handlers| == |table|
  {
    Flow.Method(obj, depth, seq(|code|, (k: nat) requires k < |code| => ReadBack(m, code, code[k])), step,
                seq(|table|, (j: nat) requires j < |table| =>
                  Flow.Handler(NumberOf(code, table[j].start), NumberOf(code, table[j].end),
                               NumberOf(code, table[j].handler), stacks[j])),
                shape, arguments, isConstructor)
  }

  // ---------- dropped copies are never the last ----------

  lemma SkippedGoesOn(m: Code, refs: seq<CodeRef>, next: map<nat, nat>, p: nat)
    requires Built(m, refs, next) && p < |refs| && refs[p].flag == Skipped
    ensures p + 1 < |refs| && Offset(m, refs, p + 1) == Offset(m, refs, p)
  {
    hide Refs, EndsKnown, Structured, InPlace, Outward;
    BuiltAt(m, refs, next, p);
    FlagOfCopy(m, refs, next, p);
    SkippedOffset(m, refs, p);
    hide Offset;
    var i := refs[p].inumber;
    match m.ops[i] {
      case StoreReturn => PlaceAfter(m, refs, next, p);
      case Jsr(t, comesBack) => var q := CallFound(m, refs, next, p, i);
      case Ret => ReturnFound(m, refs, next, p);
      case _ => assert false;
    }
  }

  /** An instruction that falls through has a copy behind it. */
  lemma PlaceAfter(m: Code, refs: seq<CodeRef>, next: map<nat, nat>, p: nat)
    requires Built(m, refs, next) && p < |refs|
    requires var op := m.ops[refs[p].inumber]; op.StoreReturn? || op.Plain? || op.If?
    ensures p + 1 < |refs|
  {
    hide Refs, EndsKnown, Structured, Offset;
    BuiltAt(m, refs, next, p);
    NextCopy(m, refs, p, refs[p].inumber);
  }

  /** Control that is at a place gets to a copy that is kept. */
  lemma {:induction false} KeptFrom(m: Code, refs: seq<CodeRef>, next: map<nat, nat>, p: nat) returns (r: nat)
    requires Built(m, refs, next) && p < |refs|
    ensures p <= r < |refs| && refs[r].flag != Skipped && Offset(m, refs, r) == Offset(m, refs, p)
    decreases |refs| - p
  {
    hide Refs, EndsKnown, Structured, Offset;
    if refs[p].flag == Skipped {
      SkippedGoesOn(m, refs, next, p);
      r := KeptFrom(m, refs, next, p + 1);
    } else {
      r := p;
    }
  }

  // ---------- numbers of instructions ----------

  lemma {:induction false} FetchedInside(code: seq<NewInstr>, pc: nat)
    requires Fetch(code, pc).Some?
    ensures exists k :: 0 <= k < |code| && code[k].pc == pc
  {
    if code[|code| - 1].pc != pc {
      FetchedInside(code[..|code| - 1], pc);
      var k :| 0 <= k < |code| - 1 && code[..|code| - 1][k].pc == pc;
      assert code[k].pc == pc;
    }
  }

  lemma {:induction false} NumberInside(code: seq<NewInstr>, pc: int, k: nat)
    requires k < |code| && code[k].pc == pc
    ensures NumberOf(code, pc) <= k
  {
    if k > 0 && code[0].pc != pc {
      NumberInside(code[1..], pc, k - 1);
    }
  }

  /** Every place in the list has a number in the new code. */
  lemma PlaceNumbered(m: Code, refs: seq<CodeRef>, next: map<nat, nat>, q: nat)
    requires Built(m, refs, next) && AllResolvable(m, refs, next) && q < |refs|
    ensures NumberOf(Emitted(m, refs, next, |refs|), Offset(m, refs, q)) < |Emitted(m, refs, next, |refs|)|
  {
    hide Refs, EndsKnown, Offset, Emitted, Fetch, Resolvable, NumberOf, StructuredAt;
    var r := KeptFrom(m, refs, next, q);
    FetchEmitted(m, refs, next, r, |refs|);
    var code, pc := Emitted(m, refs, next, |refs|), Offset(m, refs, q);
    FetchedInside(code, pc);
    var k :| 0 <= k < |code| && code[k].pc == pc;
    NumberInside(code, pc, k);
  }

  lemma {:induction false} EmittedGrows(m: Code, refs: seq<CodeRef>, next: map<nat, nat>, p: nat, q: nat)
    requires AllResolvable(m, refs, next) && p <= q <= |refs|
    ensures Emitted(m, refs, next, p) <= Emitted(m, refs, next, q)
    decreases q
  {
    hide Resolvable, EmittedOp;
    if p < q {
      EmittedGrows(m, refs, next, p, q - 1);
    }
  }

  /** Where an instruction of the new code comes from. */
  lemma {:induction false} WrittenFor(m: Code, refs: seq<CodeRef>, next: map<nat, nat>, count: nat, k: nat)
      returns (p: nat)
    requires AllResolvable(m, refs, next) && count <= |refs| && k < |Emitted(m, refs, next, count)|
    ensures p < count && refs[p].flag != Skipped && k == |Emitted(m, refs, next, p)|
    ensures Emitted(m, refs, next, count)[k] == Instr(m, refs, next, p)
    decreases count
  {
    hide Resolvable, Instr;
    if k < |Emitted(m, refs, next, count - 1)| {
      p := WrittenFor(m, refs, next, count - 1, k);
      EmittedGrows(m, refs, next, count - 1, count);
    } else {
      p := count - 1;
    }
  }

  /** An instruction that falls through is not the last. */
  lemma NotLast(m: Code, refs: seq<CodeRef>, next: map<nat, nat>, p: nat)
    requires Built(m, refs, next) && AllResolvable(m, refs, next) && p < |refs| && refs[p].flag != Skipped
    requires var op := m.ops[refs[p].inumber]; op.Plain? || op.If?
    ensures |Emitted(m, refs, next, p)| + 1 < |Emitted(m, refs, next, |refs|)|
  {
    hide Refs, EndsKnown, Offset, Resolvable, StructuredAt, Instr;
    PlaceAfter(m, refs, next, p);
    var r := KeptFrom(m, refs, next, p + 1);
    assert |Emitted(m, refs, next, p + 1)| == |Emitted(m, refs, next, p)| + 1;
    assert |Emitted(m, refs, next, r + 1)| == |Emitted(m, refs, next, r)| + 1;
    hide Emitted;
    EmittedGrows(m, refs, next, p + 1, r);
    EmittedGrows(m, refs, next, r + 1, |refs|);
  }

  // ---------- the next method is legal ----------

  /** The target of a displacement that leads to a place. */
  lemma LeadsInside(m: Code, refs: seq<CodeRef>, next: map<nat, nat>, s: Subr, t: nat, pc: nat)
    requires Built(m, refs, next) && AllResolvable(m, refs, next) && Found(m, refs, s, t)
    ensures NumberOf(Emitted(m, refs, next, |refs|), pc + Displacement(m, refs, s, t, pc))
            < |Emitted(m, refs, next, |refs|)|
  {
    hide Refs, EndsKnown, Offset, Emitted, NumberOf, Structured, Resolvable, Find, Places;
    PlaceNumbered(m, refs, next, TargetPlace(refs, s, t).value);
  }

  lemma InstrInside(m: Code, refs: seq<CodeRef>, next: map<nat, nat>, p: nat)
    requires Built(m, refs, next) && AllResolvable(m, refs, next) && ShortJumpsFit(m, refs, next)
    requires p < |refs| && refs[p].flag != Skipped
    ensures var code := Emitted(m, refs, next, |refs|);
            match ReadBack(m, code, Instr(m, refs, next, p))
            case Next => |Emitted(m, refs, next, p)| + 1 < |code|
            case If(t) => |Emitted(m, refs, next, p)| + 1 < |code| && t < |code|
            case Goto(t) => t < |code|
            case Switch(ts) => forall k :: 0 <= k < |ts| ==> ts[k] < |code|
            case InvokeInit => false
            case Exit => true
  {
    hide Refs, EndsKnown, Offset, Emitted, NumberOf, Structured, Displacement, Found, TargetPlace, InPlace;
    var code, s, pc := Emitted(m, refs, next, |refs|), refs[p].sub, Offset(m, refs, p);
    FlagOfCopy(m, refs, next, p);
    assert Resolvable(m, refs, next, p);
    match m.ops[refs[p].inumber] {
      case Plain => NotLast(m, refs, next, p);
      case If(t) =>
        NotLast(m, refs, next, p);
        LeadsInside(m, refs, next, s, t, pc);
      case Goto(t) => LeadsInside(m, refs, next, s, t, pc);
      case Switch(ts) =>
        forall k | 0 <= k < |ts|
          ensures NumberOf(code, pc + Displacements(m, refs, s, ts, pc)[k]) < |code|
        {
          LeadsInside(m, refs, next, s, ts[k], pc);
        }
      case Jsr(t, comesBack) => JsrInside(m, refs, next, p, t);
      case Ret => RetInside(m, refs, next, p);
      case _ =>
    }
  }

  lemma JsrInside(m: Code, refs: seq<CodeRef>, next: map<nat, nat>, p: nat, t: nat)
    requires Built(m, refs, next) && AllResolvable(m, refs, next) && ShortJumpsFit(m, refs, next)
    requires p < |refs| && refs[p].flag != Skipped && m.ops[refs[p].inumber].Jsr? && m.ops[refs[p].inumber].target == t
    ensures EmittedOp(m, refs, next, p).PlainGoto?
    ensures NumberOf(Emitted(m, refs, next, |refs|), Offset(m, refs, p) + EmittedOp(m, refs, next, p).displacement)
            < |Emitted(m, refs, next, |refs|)|
  {
    hide Refs, EndsKnown, Offset, Emitted, NumberOf, Structured, Displacement, TargetPlace, InPlace;
    BuiltAt(m, refs, next, p);
    FlagOfCopy(m, refs, next, p);
    assert Resolvable(m, refs, next, p);
    if m.ops[refs[p].inumber].comesBack {
      var q := CallFound(m, refs, next, p, refs[p].inumber);
      LeadsInside(m, refs, next, refs[p + 1].sub, t, Offset(m, refs, p));
    } else {
      LeadsInside(m, refs, next, refs[p].sub, t, Offset(m, refs, p));
    }
  }

  lemma RetInside(m: Code, refs: seq<CodeRef>, next: map<nat, nat>, p: nat)
    requires Built(m, refs, next) && AllResolvable(m, refs, next) && ShortJumpsFit(m, refs, next)
    requires p < |refs| && refs[p].flag != Skipped && m.ops[refs[p].inumber].Ret?
    ensures EmittedOp(m, refs, next, p).PlainGoto?
    ensures NumberOf(Emitted(m, refs, next, |refs|), Offset(m, refs, p) + EmittedOp(m, refs, next, p).displacement)
            < |Emitted(m, refs, next, |refs|)|
  {
    hide Refs, EndsKnown, Offset, Emitted, NumberOf, Structured, TargetPlace, InPlace;
    ReturnFound(m, refs, next, p);
    assert Resolvable(m, refs, next, p);
    PlaceNumbered(m, refs, next, next[refs[p].sub.caller]);
  }

  /** The method that the next pass analyses has no subroutines, and all its branches and handlers lead to
      its own instructions. */
  lemma NextPassLegal(m: Code, refs: seq<CodeRef>, next: map<nat, nat>, table: seq<CatchFrame>, g: Flow.Method)
    requires Generated(m, refs, next, table) && AllOnOffsets(m, refs, table) && TypeMerge.KnownObject(g.obj)
    requires |g.shape| == |Emitted(m, refs, next, |refs|)| && |g.handlers| == |table|
    requires g == NextMethod(m, Emitted(m, refs, next, |refs|), table, g.obj, g.depth, g.step, g.shape,
                             seq(|table|, (j: nat) requires j < |g.handlers| => g.handlers[j].stack), g.arguments,
                               g.isConstructor)
    ensures Flow.Legal(g)
  {
    NextMethodParts(m, refs, next, table, g);
    EntryNumbered(m, refs, next);
    hide Generated, NextMethod, Emitted, NumberOf, ReadBack, OnOffsets, Flow.Successors, Flow.Targets;
    forall k: nat | k < |g.code|
      ensures forall j :: 0 <= j < |Flow.Successors(g, k)| ==> Flow.Successors(g, k)[j] < |g.code|
      ensures forall j :: 0 <= j < |Flow.Targets(g, k)| ==> Flow.Targets(g, k)[j] < |g.code|
    {
      SuccessorsRead(m, refs, next, g, k) by { assert Generated(m, refs, next, table); }
    }
    forall j | 0 <= j < |table|
      ensures g.handlers[j].handler < |g.code|
    {
      HandlerNumbered(m, refs, next, table[j]) by { assert Generated(m, refs, next, table); }
    }
  }

  lemma NextMethodParts(m: Code, refs: seq<CodeRef>, next: map<nat, nat>, table: seq<CatchFrame>, g: Flow.Method)
    requires AllResolvable(m, refs, next) && |g.shape| == |Emitted(m, refs, next, |refs|)| && |g.handlers| == |table|
    requires g == NextMethod(m, Emitted(m, refs, next, |refs|), table, g.obj, g.depth, g.step, g.shape,
                             seq(|table|, (j: nat) requires j < |g.handlers| => g.handlers[j].stack), g.arguments,
                               g.isConstructor)
    ensures var code := Emitted(m, refs, next, |refs|);
            && |g.code| == |code| == |g.shape|
            && (forall k :: 0 <= k < |code| ==> g.code[k] == ReadBack(m, code, code[k]))
            && forall j :: 0 <= j < |table| ==> g.handlers[j].handler == NumberOf(code, table[j].handler)
  {
    hide Emitted, AllResolvable, ReadBack, NumberOf;
  }

  lemma EntryNumbered(m: Code, refs: seq<CodeRef>, next: map<nat, nat>)
    requires Built(m, refs, next) && AllResolvable(m, refs, next)
    ensures 0 < |Emitted(m, refs, next, |refs|)|
  {
    EntryAt(m, refs, next, 0);
    hide Structured, EndsKnown, Refs, Emitted, Resolvable;
    PlaceNumbered(m, refs, next, 0);
  }

  lemma SuccessorsRead(m: Code, refs: seq<CodeRef>, next: map<nat, nat>, g: Flow.Method, k: nat)
    requires Built(m, refs, next) && AllResolvable(m, refs, next) && ShortJumpsFit(m, refs, next)
    requires var code := Emitted(m, refs, next, |refs|);
             k < |g.code| == |code| && g.code[k] == ReadBack(m, code, code[k])
    ensures forall j :: 0 <= j < |Flow.Successors(g, k)| ==> Flow.Successors(g, k)[j] < |g.code|
    ensures forall j :: 0 <= j < |Flow.Targets(g, k)| ==> Flow.Targets(g, k)[j] < |g.code|
  {
    hide Built, AllResolvable, ShortJumpsFit, Emitted, ReadBack, Instr;
    var p := WrittenFor(m, refs, next, |refs|, k);
    InstrInside(m, refs, next, p);
  }

  lemma HandlerNumbered(m: Code, refs: seq<CodeRef>, next: map<nat, nat>, c: CatchFrame)
    requires Built(m, refs, next) && AllResolvable(m, refs, next) && OnOffsets(m, refs, c)
    ensures NumberOf(Emitted(m, refs, next, |refs|), c.handler) < |Emitted(m, refs, next, |refs|)|
  {
    hide Refs, EndsKnown, Offset, Emitted, NumberOf, Structured, Resolvable;
    var h: nat :| h < |refs| && Offset(m, refs, h) == c.handler;
    PlaceNumbered(m, refs, next, h);
  }
}
