/** The instructions written for the inlined list. */
module EmittedCode {
  import opened Wrappers
  import opened Subroutines
  import opened InlinedList
  import opened InlineJsr
  import opened NewCode

  /** A new instruction: a copy of an old one, with displacements of its own where it branches, or a
      goto that stands for a jsr or a ret. */
  datatype NewOp =
    | Copied(i: nat) | Branching(i: nat, displacement: int) | PlainGoto(displacement: int)
    | Switching(i: nat, displacements: seq<int>)

  datatype NewInstr = NewInstr(pc: nat, size: nat, op: NewOp)

  /** The list has been built. */
  ghost predicate Built(m: Code, refs: seq<CodeRef>, next: map<nat, nat>) {
    Structured(m) && refs == Refs(m) && EndsKnown(m, refs, next, 0) && Numbered(m, refs)
  }

  predicate Found(m: Code, refs: seq<CodeRef>, s: Subr, t: nat) {
    t < |m.ops| && TargetPlace(refs, s, t).Some?
  }

  /** What the generator looks up for this copy is there. */
  predicate Resolvable(m: Code, refs: seq<CodeRef>, next: map<nat, nat>, p: nat)
    requires Numbered(m, refs) && p < |refs|
  {
    var s := refs[p].sub;
    match m.ops[refs[p].inumber]
    case If(t) => Found(m, refs, s, t)
    case Goto(t) => Found(m, refs, s, t)
    case Switch(ts) => forall k :: 0 <= k < |ts| ==> Found(m, refs, s, ts[k])
    case Jsr(t, _) =>
      if refs[p].flag == JsrTargetedGoto then p + 1 < |refs| && Found(m, refs, refs[p + 1].sub, t)
      else refs[p].flag == JsrSimpleGoto ==> Found(m, refs, s, t)
    case Ret => s.Sub? && s.caller in next && next[s.caller] <= |refs|
    case _ => true
  }

  function Displacement(m: Code, refs: seq<CodeRef>, s: Subr, t: nat, pc: nat): int
    requires Numbered(m, refs) && Found(m, refs, s, t)
  {
    Offset(m, refs, TargetPlace(refs, s, t).value) - pc
  }

  function Displacements(m: Code, refs: seq<CodeRef>, s: Subr, ts: seq<nat>, pc: nat): (ds: seq<int>)
    requires Numbered(m, refs) && forall k :: 0 <= k < |ts| ==> Found(m, refs, s, ts[k])
    ensures |ds| == |ts|
  {
    seq(|ts|, (k: nat) requires k < |ts| => Displacement(m, refs, s, ts[k], pc))
  }

  /** How far the instruction jumps, if that is written in two bytes. */
  function ShortJump(m: Code, refs: seq<CodeRef>, next: map<nat, nat>, p: nat): Option<int>
    requires Numbered(m, refs) && p < |refs| && Resolvable(m, refs, next, p)
  {
    var s, pc := refs[p].sub, Offset(m, refs, p);
    match m.ops[refs[p].inumber]
    case If(t) => Some(Displacement(m, refs, s, t, pc))
    case Goto(t) => Some(Displacement(m, refs, s, t, pc))
    case Jsr(t, _) =>
      if refs[p].flag == JsrTargetedGoto then Some(Displacement(m, refs, refs[p + 1].sub, t, pc))
      else if refs[p].flag == JsrSimpleGoto then Some(Displacement(m, refs, s, t, pc))
      else None
    case Ret => Some(Offset(m, refs, next[s.caller]) - pc)
    case _ => None
  }

  function EmittedOp(m: Code, refs: seq<CodeRef>, next: map<nat, nat>, p: nat): NewOp
    requires Numbered(m, refs) && p < |refs| && Resolvable(m, refs, next, p)
  {
    var i, jump := refs[p].inumber, ShortJump(m, refs, next, p);
    if m.ops[i].Switch? then Switching(i, Displacements(m, refs, refs[p].sub, m.ops[i].targets, Offset(m, refs, p)))
    else if jump.None? then Copied(i)
    else if m.ops[i].If? || m.ops[i].Goto? then Branching(i, Short(jump.value))
    else PlainGoto(Short(jump.value))
  }

  /** Every displacement that is written in two bytes fits in them. */
  predicate ShortJumpsFit(m: Code, refs: seq<CodeRef>, next: map<nat, nat>)
    requires AllResolvable(m, refs, next)
  {
    forall p :: 0 <= p < |refs| && refs[p].flag != Skipped && ShortJump(m, refs, next, p).Some? ==>
      -32768 <= ShortJump(m, refs, next, p).value < 32768
  }

  function Instr(m: Code, refs: seq<CodeRef>, next: map<nat, nat>, p: nat): NewInstr
    requires Numbered(m, refs) && p < |refs| && refs[p].flag != Skipped && Resolvable(m, refs, next, p)
  {
    NewInstr(Offset(m, refs, p), Offset(m, refs, p + 1) - Offset(m, refs, p), EmittedOp(m, refs, next, p))
  }

  predicate AllResolvable(m: Code, refs: seq<CodeRef>, next: map<nat, nat>) {
    Numbered(m, refs) && forall p :: 0 <= p < |refs| ==> Resolvable(m, refs, next, p)
  }

  /** The instructions written for the first `p` copies. */
  function Emitted(m: Code, refs: seq<CodeRef>, next: map<nat, nat>, p: nat): seq<NewInstr>
    requires AllResolvable(m, refs, next) && p <= |refs|
  {
    if p == 0 then []
    else if refs[p - 1].flag == Skipped then Emitted(m, refs, next, p - 1)
    else Emitted(m, refs, next, p - 1) + [Instr(m, refs, next, p - 1)]
  }

  // ---------- everything can be resolved ----------

  lemma BuiltAt(m: Code, refs: seq<CodeRef>, next: map<nat, nat>, p: nat)
    requires Built(m, refs, next) && p < |refs|
    ensures var i := refs[p].inumber;
            i < |m.ops| && m.reached[i] && m.chains[i] == Chain(refs[p].sub) && StructuredAt(m, i)
            && Live(m, refs, refs[p].sub)
  {
    hide Refs, StructuredAt, Live, EndsKnown, OneRet, Segment, Numbered;
    Standing(m, refs, p);
  }

  lemma OutwardFound(m: Code, refs: seq<CodeRef>, next: map<nat, nat>, p: nat, t: nat) returns (q: nat)
    requires Built(m, refs, next) && p < |refs| && Outward(m, refs[p].inumber, t)
    ensures Found(m, refs, refs[p].sub, t) && TargetPlace(refs, refs[p].sub, t).value == q
    ensures Eligible(refs, refs[p].sub, t, q)
    ensures |m.chains[t]| <= Depth(refs[p].sub) && refs[q].sub == Ancestor(refs[p].sub, |m.chains[t]|)
    ensures forall r :: Eligible(refs, refs[p].sub, t, r) ==> r == q
  {
    hide Refs, StructuredAt, Live, EndsKnown, OneRet, TargetPlace, Encloses;
    BuiltAt(m, refs, next, p);
    q := TargetIsEligible(m, refs, refs[p].sub, t);
  }

  /** A returning jsr finds its target among the copies made for its own call. */
  lemma CallFound(m: Code, refs: seq<CodeRef>, next: map<nat, nat>, p: nat, i: nat) returns (q: nat)
    requires Built(m, refs, next) && p < |refs| && refs[p].inumber == i && Calls(m, i)
    ensures var t := m.ops[i].target;
            p + 1 < |refs| && refs[p + 1].sub == Sub(p, t, refs[p].sub)
            && Found(m, refs, refs[p + 1].sub, t) && TargetPlace(refs, refs[p + 1].sub, t).value == q
            && q < |refs| && refs[q].inumber == t && refs[q].sub == refs[p + 1].sub
            && (refs[p].flag == Skipped ==> q == p + 1) && (refs[p].flag == Skipped || refs[p].flag == JsrTargetedGoto)
  {
    hide Refs, Live, EndsKnown, OneRet, TargetPlace, Encloses;
    BuiltAt(m, refs, next, p);
    var t := m.ops[i].target;
    CallCopy(m, refs, p, i);
    q := TargetIsEligible(m, refs, refs[p + 1].sub, t);
    if refs[p].flag == Skipped {
      CopiesUnique(m, refs, p + 1, q);
    }
  }

  /** A ret goes to the copy of its return point that was made for the jsr's own call. */
  lemma ReturnFound(m: Code, refs: seq<CodeRef>, next: map<nat, nat>, p: nat)
    requires Built(m, refs, next) && p < |refs| && m.ops[refs[p].inumber].Ret?
    ensures var s := refs[p].sub;
            s.Sub? && s.caller < |refs| && s.caller in next && next[s.caller] < |refs|
            && refs[next[s.caller]].inumber == refs[s.caller].inumber + 1 && refs[next[s.caller]].sub == s.parent
            && refs[s.caller].sub == s.parent
            && (refs[p].flag == Skipped ==> next[s.caller] == p + 1)
            && (refs[p].flag == Skipped || refs[p].flag == RetSimpleGoto)
  {
    hide Refs, OneRet, Segment, End, Structured;
    BuiltAt(m, refs, next, p);
    var s := refs[p].sub;
    assert s.Sub?;
    ReturnCopy(m, refs, p, refs[p].inumber, s.caller) by { assert Sized(m); }
    BuiltAt(m, refs, next, s.caller);
  }

  lemma FlagOfCopy(m: Code, refs: seq<CodeRef>, next: map<nat, nat>, p: nat)
    requires Built(m, refs, next) && p < |refs|
    ensures var op := m.ops[refs[p].inumber];
            && (op.Jsr? && !op.comesBack ==> refs[p].flag == JsrSimpleGoto)
            && (op.StoreReturn? ==> refs[p].flag == Skipped)
            && (!op.Jsr? && !op.StoreReturn? && !op.Ret? ==> refs[p].flag == Normal)
  {
    hide Refs, OneRet, Segment, Live, EndsKnown, Body;
    Standing(m, refs, p);
    SegmentParts(m, refs, refs[p].sub, refs[p].inumber, p);
  }

  lemma BuiltResolvable(m: Code, refs: seq<CodeRef>, next: map<nat, nat>)
    requires Built(m, refs, next)
    ensures AllResolvable(m, refs, next)
  {
    hide Refs, OneRet, Segment, Live, EndsKnown, Found, Outward, Resolvable;
    forall p | 0 <= p < |refs|
      ensures Resolvable(m, refs, next, p)
    {
      ResolvableAt(m, refs, next, p);
    }
  }

  lemma ResolvableAt(m: Code, refs: seq<CodeRef>, next: map<nat, nat>, p: nat)
    requires Built(m, refs, next) && p < |refs|
    ensures Resolvable(m, refs, next, p)
  {
    hide Refs, OneRet, Live, EndsKnown, Found, Outward, Structured, InPlace;
    BuiltAt(m, refs, next, p);
    FlagOfCopy(m, refs, next, p);
    match m.ops[refs[p].inumber] {
      case If(t) => var q := OutwardFound(m, refs, next, p, t);
      case Goto(t) => var q := OutwardFound(m, refs, next, p, t);
      case Switch(ts) =>
        forall k | 0 <= k < |ts|
          ensures Found(m, refs, refs[p].sub, ts[k])
        {
          var q := OutwardFound(m, refs, next, p, ts[k]);
        }
      case Jsr(t, comesBack) =>
        if comesBack {
          var q := CallFound(m, refs, next, p, refs[p].inumber);
        } else {
          var q := OutwardFound(m, refs, next, p, t);
        }
      case Ret => ReturnFound(m, refs, next, p);
      case _ =>
    }
  }

  // ---------- the bytes that the instructions take ----------

  /** What is written for a copy takes three bytes if the copy is of a ret, the bytes of a switch, or else
      the bytes that the instruction had. */
  lemma InstrSize(m: Code, refs: seq<CodeRef>, next: map<nat, nat>, p: nat)
    requires Numbered(m, refs) && p < |refs| && refs[p].flag != Skipped && Resolvable(m, refs, next, p)
    ensures var x, i := Instr(m, refs, next, p), refs[p].inumber;
            match m.ops[i]
            case Ret => x.size == 3
            case Switch(_) => m.lengths[i] > 0 ==> SwitchSize(m.lengths[i], x.pc, x.size)
            case _ => x.size == m.lengths[i]
  {
    hide Resolvable, EmittedOp, Offset, SwitchSize;
    OffsetTakes(m, refs, p);
  }

  function TotalSize(code: seq<NewInstr>): nat {
    if code == [] then 0 else TotalSize(code[..|code| - 1]) + code[|code| - 1].size
  }

  /** Each instruction starts where those before it end. */
  predicate InARow(code: seq<NewInstr>) {
    forall k :: 0 <= k < |code| ==> code[k].pc == TotalSize(code[..k])
  }

  lemma InARowMore(code: seq<NewInstr>, x: NewInstr)
    requires InARow(code) && x.pc == TotalSize(code)
    ensures InARow(code + [x]) && TotalSize(code + [x]) == TotalSize(code) + x.size
  {
    assert (code + [x])[..|code|] == code;
    hide TotalSize;
    forall k | 0 <= k < |code| + 1
      ensures (code + [x])[k].pc == TotalSize((code + [x])[..k])
    {
      if k < |code| {
        assert (code + [x])[..k] == code[..k];
      }
    }
  }

  /** The offset after a copy is the sum of the sizes of the instructions written so far. */
  lemma {:induction false} EmittedOffsets(m: Code, refs: seq<CodeRef>, next: map<nat, nat>, p: nat)
    requires AllResolvable(m, refs, next) && p <= |refs|
    ensures InARow(Emitted(m, refs, next, p)) && TotalSize(Emitted(m, refs, next, p)) == Offset(m, refs, p)
  {
    hide Resolvable, EmittedOp, InARow, Advance;
    if p == 0 {
      assert InARow([]) by { NothingInARow(); }
    } else {
      EmittedOffsets(m, refs, next, p - 1);
      if refs[p - 1].flag == Skipped {
        assert Offset(m, refs, p) == Offset(m, refs, p - 1) by { OffsetTakes(m, refs, p - 1); }
      } else {
        OffsetMonotone(m, refs, p - 1, p);
        InARowMore(Emitted(m, refs, next, p - 1), Instr(m, refs, next, p - 1));
      }
    }
  }

  lemma NothingInARow()
    ensures InARow([])
  {}

  /** The size of every new instruction, by what it is: where no jsr is a wide one, each goto that replaces
      a jsr or a ret has three bytes, and apart from switches every other instruction its old length. */
  lemma {:induction false} EmittedSize(m: Code, refs: seq<CodeRef>, next: map<nat, nat>, p: nat, k: nat)
    requires AllResolvable(m, refs, next) && p <= |refs| && k < |Emitted(m, refs, next, p)|
    requires forall i :: 0 <= i < |m.ops| ==> m.lengths[i] > 0 && (m.ops[i].Jsr? ==> m.lengths[i] == 3)
    ensures var x := Emitted(m, refs, next, p)[k];
            match x.op
            case Copied(i) => i < |m.lengths| && x.size == m.lengths[i]
            case Branching(i, _) => i < |m.lengths| && x.size == m.lengths[i]
            case PlainGoto(_) => x.size == 3
            case Switching(i, _) => i < |m.lengths| && SwitchSize(m.lengths[i], x.pc, x.size)
  {
    hide Resolvable, Offset, SwitchSize, Displacement, Displacements;
    if refs[p - 1].flag == Skipped || k < |Emitted(m, refs, next, p - 1)| {
      EmittedSize(m, refs, next, p - 1, k);
    } else {
      assert Resolvable(m, refs, next, p - 1);
      InstrSize(m, refs, next, p - 1);
      OpOfCopy(m, refs, next, p - 1);
    }
  }

  /** Which copies are written as gotos of their own. */
  lemma OpOfCopy(m: Code, refs: seq<CodeRef>, next: map<nat, nat>, p: nat)
    requires Numbered(m, refs) && p < |refs| && Resolvable(m, refs, next, p)
    ensures var x, i := EmittedOp(m, refs, next, p), refs[p].inumber;
            && (x.Copied? ==> x.i == i && !m.ops[i].Ret? && !m.ops[i].Switch?)
            && (x.Branching? ==> x.i == i && (m.ops[i].If? || m.ops[i].Goto?))
            && (x.PlainGoto? ==> m.ops[i].Jsr? || m.ops[i].Ret?)
            && (x.Switching? <==> m.ops[i].Switch?) && (x.Switching? ==> x.i == i)
  {
    hide Find, Offset;
  }

  // ---------- writing the code ----------

  ghost predicate Finished(ctx: JsrContext)
    reads ctx, ctx.mapping
  {
    ctx.Valid() && Built(ctx.m, ctx.refs, ctx.next)
  }

  /** Inlines all subroutines of a method. */
  method Inline(m: Code) returns (ctx: JsrContext)
    requires Structured(m)
    ensures fresh(ctx) && ctx.m == m && Finished(ctx)
  {
    hide Places, OneRet, Body, EndsKnown, EndsKept, Revised, StructuredAt;
    ctx := new JsrContext(m);
    ctx.RewriteOneSubroutine(Top);
    assert ctx.refs == Refs(m) by { RevisedTop([], Body(m, Top, 0, 0)); }
  }

  lemma RevisedTop(refs: seq<CodeRef>, b: seq<CodeRef>)
    ensures Revised(refs, Top, b) == refs && [] + b == b
  {}

  method EmitOp(ctx: JsrContext, offsets: array<nat>, length: nat, p: nat) returns (op: NewOp)
    requires Finished(ctx) && p < |ctx.refs| && ctx.refs[p].flag != Skipped
    requires AllResolvable(ctx.m, ctx.refs, ctx.next) && offsets.Length == |ctx.refs|
    requires forall q :: 0 <= q < |ctx.refs| ==> offsets[q] == Offset(ctx.m, ctx.refs, q)
    requires length == Offset(ctx.m, ctx.refs, |ctx.refs|)
    ensures op == EmittedOp(ctx.m, ctx.refs, ctx.next, p)
  {
    hide Built, Places, OneRet, Offset, Refs, Find, Displacements;
    var r, pc := ctx.refs[p], offsets[p];
    assert Resolvable(ctx.m, ctx.refs, ctx.next, p);
    hide Numbered, AllResolvable;
    match ctx.m.ops[r.inumber] {
      case If(t) =>
        var v := UpdateTarget(ctx, offsets, t, r.sub, pc);
        op := Branching(r.inumber, Short(v));
      case Goto(t) =>
        var v := UpdateTarget(ctx, offsets, t, r.sub, pc);
        op := Branching(r.inumber, Short(v));
      case Jsr(t, _) =>
        if r.flag == JsrSimpleGoto {
          var v := UpdateTarget(ctx, offsets, t, r.sub, pc);
          op := PlainGoto(Short(v));
        } else if r.flag == JsrTargetedGoto {
          var v := UpdateTarget(ctx, offsets, t, ctx.refs[p + 1].sub, pc);
          op := PlainGoto(Short(v));
        } else {
          op := Copied(r.inumber);
        }
      case Ret =>
        var next := ctx.next[r.sub.caller];
        op := PlainGoto(Short((if next < |ctx.refs| then offsets[next] else length) - pc));
      case Switch(ts) =>
        var ds := EmitSwitch(ctx, offsets, ts, r.sub, pc);
        op := Switching(r.inumber, ds);
      case _ =>
        op := Copied(r.inumber);
    }
  }

  method EmitSwitch(ctx: JsrContext, offsets: array<nat>, ts: seq<nat>, s: Subr, pc: nat) returns (ds: seq<int>)
    requires ctx.Valid() && offsets.Length == |ctx.refs| && Numbered(ctx.m, ctx.refs)
    requires forall q :: 0 <= q < |ctx.refs| ==> offsets[q] == Offset(ctx.m, ctx.refs, q)
    requires forall k :: 0 <= k < |ts| ==> Found(ctx.m, ctx.refs, s, ts[k])
    ensures ds == Displacements(ctx.m, ctx.refs, s, ts, pc)
  {
    hide Places, OneRet, Offset, Find;
    ds := [];
    while |ds| < |ts|
      invariant |ds| <= |ts|
      invariant forall k :: 0 <= k < |ds| ==> ds[k] == Displacement(ctx.m, ctx.refs, s, ts[k], pc)
    {
      var v := UpdateTarget(ctx, offsets, ts[|ds|], s, pc);
      ds := ds + [v];
    }
  }

  method FixupCode(ctx: JsrContext) returns (code: seq<NewInstr>, offsets: array<nat>, length: nat)
    requires Finished(ctx)
    ensures AllResolvable(ctx.m, ctx.refs, ctx.next)
    ensures code == Emitted(ctx.m, ctx.refs, ctx.next, |ctx.refs|) && length == Offset(ctx.m, ctx.refs, |ctx.refs|)
    ensures offsets.Length == |ctx.refs| && fresh(offsets)
    ensures forall p :: 0 <= p < |ctx.refs| ==> offsets[p] == Offset(ctx.m, ctx.refs, p)
    ensures InARow(code) && length == TotalSize(code)
  {
    hide Places, OneRet, Offset, Built, EmittedOp, Resolvable, TotalSize, LaidOut, InARow;
    BuiltResolvable(ctx.m, ctx.refs, ctx.next);
    offsets, length := AssignOffsets(ctx);
    code := [];
    var p := 0;
    while p < |ctx.refs|
      invariant p <= |ctx.refs| && code == Emitted(ctx.m, ctx.refs, ctx.next, p)
      invariant forall q :: 0 <= q < |ctx.refs| ==> offsets[q] == Offset(ctx.m, ctx.refs, q)
    {
      if ctx.refs[p].flag != Skipped {
        var op := EmitOp(ctx, offsets, length, p);
        OffsetMonotone(ctx.m, ctx.refs, p, p + 1);
        code := code + [NewInstr(offsets[p], (if p + 1 < |ctx.refs| then offsets[p + 1] else length) - offsets[p], op)];
      }
      p := p + 1;
    }
    EmittedOffsets(ctx.m, ctx.refs, ctx.next, |ctx.refs|);
  }

  // ---------- finding an instruction ----------

  function Fetch(code: seq<NewInstr>, pc: nat): Option<NewInstr> {
    if code == [] then None
    else if code[|code| - 1].pc == pc then Some(code[|code| - 1])
    else Fetch(code[..|code| - 1], pc)
  }

  lemma FetchMore(code: seq<NewInstr>, x: NewInstr, pc: nat)
    ensures Fetch(code + [x], pc) == if x.pc == pc then Some(x) else Fetch(code, pc)
  {
    assert (code + [x])[..|code|] == code;
  }

  /** At the offset of a copy that is not dropped stands what was written for it. */
  lemma {:induction false} FetchEmitted(m: Code, refs: seq<CodeRef>, next: map<nat, nat>, p: nat, count: nat)
    requires AllResolvable(m, refs, next) && p < count <= |refs| && refs[p].flag != Skipped
    requires forall i :: 0 <= i < |m.lengths| ==> m.lengths[i] > 0
    ensures Fetch(Emitted(m, refs, next, count), Offset(m, refs, p)) == Some(Instr(m, refs, next, p))
    decreases count
  {
    hide Offset, EmittedOp, Resolvable, Fetch;
    if refs[count - 1].flag != Skipped {
      FetchMore(Emitted(m, refs, next, count - 1), Instr(m, refs, next, count - 1), Offset(m, refs, p));
    }
    if count > p + 1 {
      FetchEmitted(m, refs, next, p, count - 1);
      if refs[count - 1].flag != Skipped {
        OffsetStrict(m, refs, p, count - 1);
      }
    }
  }
}
