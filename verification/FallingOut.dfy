/** Why inlining needs methods to leave subroutines by branches only: a method that falls out of one. */
module FallingOut {
  import opened Wrappers
  import opened Subroutines
  import opened InlinedList
  import opened InlineJsr
  import opened NewCode
  import opened EmittedCode
  import opened ExceptionTable
  import opened InlineRuns
  import opened DeadCode

  // ---------- what it takes to fall through correctly ----------

  /** Where a jsr comes back to is in the jsr's own subroutine. */
  predicate ReturnsInPlace(m: Code)
    requires Sized(m)
  {
    forall c :: 0 <= c < |m.ops| && m.reached[c] && Calls(m, c) ==> InPlace(m, c, c + 1)
  }

  lemma {:induction false} FirstIsOwn(m: Code, s: Subr, i: nat, base: nat)
    requires Sized(m) && i <= |m.ops| && Body(m, s, i, base) != []
    ensures Body(m, s, i, base)[0].sub == s
    decreases |m.ops| - i
  {
    if i < |m.ops| && !Included(m, s, i) {
      FirstIsOwn(m, s, i + 1, base);
    }
  }

  /** After the last copy made for a call comes the copy of its return point. */
  lemma AfterLast(m: Code, refs: seq<CodeRef>, p: nat)
    requires Sized(m) && refs == Refs(m) && p + 1 < |refs| && ReturnsInPlace(m)
    requires End(m, refs[p].sub, 0, Base(refs[p].sub)) == p + 1
    ensures var s := refs[p].sub;
            s.Sub? && s.caller < |refs| && refs[s.caller].inumber < |m.ops| && Calls(m, refs[s.caller].inumber)
            && refs[p + 1].inumber == refs[s.caller].inumber + 1
  {
    hide Body, PlacedAt;
    var s := refs[p].sub;
    Standing(m, refs, p);
    if s.Sub? {
      hide Refs;
      var c, j := s.caller, refs[s.caller].inumber;
      Standing(m, refs, c);
      SegmentParts(m, refs, s.parent, j, c);
      FirstOfBody(m, refs, s.parent, j + 1, p + 1);
    }
  }

  /** An instruction that is not a call is followed in the list by a copy of the next one exactly when
      falling through stays in its subroutine. */
  lemma FallsThroughIff(m: Code, refs: seq<CodeRef>, p: nat, i: nat)
    requires Sized(m) && refs == Refs(m) && p < |refs| && refs[p].inumber == i < |m.ops|
    requires !Calls(m, i) && ReturnsInPlace(m)
    ensures p + 1 < |refs| && refs[p + 1].inumber == i + 1 <==> InPlace(m, i, i + 1)
  {
    hide Body, Refs, Segment, PlacedAt, ReturnsInPlace;
    var s := refs[p].sub;
    Standing(m, refs, p);
    if InPlace(m, i, i + 1) {
      NextCopy(m, refs, p, i);
    } else if p + 1 < |refs| && refs[p + 1].inumber == i + 1 {
      SegmentParts(m, refs, s, i, p);
      Standing(m, refs, p + 1);
      if Body(m, s, i + 1, p + 1) != [] {
        FirstIsOwn(m, s, i + 1, p + 1);
        SegmentHead(m, refs, s, i + 1, p + 1);
        assert false;
      } else {
        AfterLast(m, refs, p);
        assert false;
      }
    }
  }

  // ---------- a method that falls out of a subroutine ----------

  /** A subroutine at 3 that returns from 7 or falls through to 6, which the rest of the method also
      reaches, by way of 1 and 2. */
  function Example(): Code {
    Code([Jsr(3, true), Plain, Goto(6), StoreReturn, Plain, If(7), Exit, Ret], [3, 1, 3, 1, 1, 3, 1, 2],
         [true, true, true, true, true, true, true, true], [[], [], [], [3], [3], [3], [], [3]], [],
         [false, false, false, true, false, false, false, false])
  }

  function List(): seq<CodeRef> {
    var s := Sub(0, 3, Top);
    [CodeRef(0, Top, Skipped), CodeRef(3, s, Skipped), CodeRef(4, s, Normal), CodeRef(5, s, Normal),
    CodeRef(7, s, Skipped),
     CodeRef(1, Top, Normal), CodeRef(2, Top, Normal), CodeRef(6, Top, Normal)]
  }

  /** All that is wrong with the method is that instruction 5 falls through to the outside. */
  lemma OnlyFault()
    ensures Sized(Example()) && OneRet(Example()) && AddressesStored(Example()) && !InPlace(Example(), 5, 6)
    ensures forall i :: 0 <= i < 8 && i != 5 ==> StructuredAt(Example(), i)
    ensures Outward(Example(), 5, 6) && Outward(Example(), 5, 7)
  {
    FaultAlone();
    hide StructuredAt, InPlace, Outward, OneRet, AddressesStored;
    forall i | 0 <= i < 8 && i != 5
      ensures StructuredAt(Example(), i)
    {
      if i < 3 {
        MainStructured(i);
      } else {
        RestStructured(i);
      }
    }
  }

  lemma FaultAlone()
    ensures Sized(Example()) && OneRet(Example()) && AddressesStored(Example()) && !InPlace(Example(), 5, 6)
    ensures Outward(Example(), 5, 6) && Outward(Example(), 5, 7)
  {
    ExampleOneRet();
    hide OneRet;
  }

  lemma ExampleOneRet()
    ensures Sized(Example()) && OneRet(Example())
  {
    var m := Example();
    assert forall i :: 0 <= i < 8 && m.ops[i].Ret? ==> i == 7;
  }

  lemma MainStructured(i: nat)
    requires i < 3
    ensures StructuredAt(Example(), i)
  {
    var m := Example();
    assert m.chains[0] + [3] == [3];
  }

  lemma RestStructured(i: nat)
    requires 3 <= i < 8 && i != 5
    ensures StructuredAt(Example(), i)
  {}

  /** In the list, the copy of instruction 5 is followed by the dropped ret and then by the copy of
      instruction 1: what instruction 1 does is done, although the method goes from 5 to 6. */
  lemma WrongSuccessor(m: Code)
    requires m == Example()
    ensures Sized(m) && Refs(m) == List()
  {
    hide Body, Inner, Chain, Depth;
    SubroutineBody(m);
    MainBody(m);
    ChainsAre();
    var s := Sub(0, 3, Top);
    var inner, rest := Body(m, s, 0, 1), Body(m, Top, 1, 5);
    BodyCall(m, Top, 0, 0, 3);
    hide Example;
    assert Body(m, Top, 0, 0) == [CodeRef(0, Top, Skipped)] + inner + rest;
  }

  lemma MainBody(m: Code)
    requires m == Example()
    ensures Sized(m)
    ensures Body(m, Top, 1, 5) == [CodeRef(1, Top, Normal), CodeRef(2, Top, Normal), CodeRef(6, Top, Normal)]
  {
    ChainsAre();
    hide Body, Inner, Chain, Depth;
    BodyEnd(m, Top, 8, 8);
    BodySkip(m, Top, 7, 8);
    BodyPlain(m, Top, 6, 7);
    BodySkipTo(m, Top, 3, 6, 7);
    BodyPlain(m, Top, 2, 6);
    BodyPlain(m, Top, 1, 5);
  }

  lemma ChainsAre()
    ensures Chain(Top) == [] && Chain(Sub(0, 3, Top)) == [3]
  {}

  lemma SubroutineBody(m: Code)
    requires m == Example()
    ensures var s := Sub(0, 3, Top);
            Sized(m) && Body(m, s, 0, 1) == [CodeRef(3, s, Skipped), CodeRef(4, s, Normal), CodeRef(5, s, Normal),
              CodeRef(7, s, Skipped)]
  {
    var s := Sub(0, 3, Top);
    hide Body, Inner, Chain, Depth;
    SubroutineEnd(m);
    WhereIncluded(m);
    hide Example, Included;
    BodyOf(m, s);
  }

  lemma BodyOf(m: Code, s: Subr)
    requires Sized(m) && |m.ops| == 8 && m.ops[3].StoreReturn? && Included(m, s, 3)
    requires forall k :: 0 <= k < 3 ==> !Included(m, s, k)
    requires Body(m, s, 4, 2) == [CodeRef(4, s, Normal), CodeRef(5, s, Normal), CodeRef(7, s, Skipped)]
    ensures Body(m, s, 0, 1) ==
            [CodeRef(3, s, Skipped), CodeRef(4, s, Normal), CodeRef(5, s, Normal), CodeRef(7, s, Skipped)]
  {
    hide Body, Included;
    BodyStore(m, s, 3, 1);
    BodySkipTo(m, s, 0, 3, 1);
  }

  lemma WhereIncluded(m: Code)
    requires m == Example()
    ensures Sized(m) && |m.ops| == 8 && m.ops[3].StoreReturn? && Included(m, Sub(0, 3, Top), 3)
    ensures forall k :: 0 <= k < 3 ==> !Included(m, Sub(0, 3, Top), k)
  {
    ChainsAre();
  }

  lemma SubroutineEnd(m: Code)
    requires m == Example()
    ensures var s := Sub(0, 3, Top);
            Sized(m) && Body(m, s, 4, 2) == [CodeRef(4, s, Normal), CodeRef(5, s, Normal), CodeRef(7, s, Skipped)]
  {
    WhereEnding(m);
    EndOf(m, Sub(0, 3, Top));
  }

  lemma WhereEnding(m: Code)
    requires m == Example()
    ensures var s := Sub(0, 3, Top);
            Sized(m) && |m.ops| == 8 && m.ops[4].Plain? && m.ops[5].If? && m.ops[7].Ret?
            && Included(m, s, 4) && Included(m, s, 5) && !Included(m, s, 6) && Included(m, s, 7)
  {
    ChainsAre();
  }

  lemma EndOf(m: Code, s: Subr)
    requires Sized(m) && |m.ops| == 8 && m.ops[4].Plain? && m.ops[5].If? && m.ops[7].Ret?
    requires Included(m, s, 4) && Included(m, s, 5) && !Included(m, s, 6) && Included(m, s, 7)
    ensures Body(m, s, 4, 2) == [CodeRef(4, s, Normal), CodeRef(5, s, Normal), CodeRef(7, s, Skipped)]
  {
    hide Body, Included;
    BodyEnd(m, s, 8, 5);
    BodyRet(m, s, 7, 4);
    BodySkip(m, s, 6, 4);
    BodyPlain(m, s, 5, 3);
    BodyPlain(m, s, 4, 2);
  }

  // The two runs of the example.

  /** Instruction 1 throws, instruction 6 returns, and all others go on to the next. */
  function Acts<D>(i: nat, data: D): Act<D> {
    if i == 1 then Throw(_ => false, data) else if i == 6 then Return(data) else Fall(data)
  }

  /** The old code returns. */
  lemma OldReturns<D>(m: Code, handle: Handle<D>, data: D)
    requires m == Example()
    ensures Sized(m) && OldRun(m, (i, d) => Acts(i, d), handle, Running(0, [], [], data), 5) == Ended(Finished(data))
  {
    var act := (i: nat, d: D) => Acts(i, d);
    OldEnters(m, act, handle, data);
    OldLeaves(m, act, handle, data);
  }

  lemma OldEnters<D>(m: Code, act: (nat, D) -> Act<D>, handle: Handle<D>, data: D)
    requires m == Example() && act(4, data) == Fall(data)
    ensures OldRun(m, act, handle, Running(0, [], [], data), 5) == OldRun(m, act, handle, Running(5, [0], [], data), 2)
  {
    var c1 := OldStep(m, act, handle, Running(0, [], [], data));
    assert c1 == Running(3, [0], [0], data);
    var c2 := OldStep(m, act, handle, c1);
    assert c2 == Running(4, [0], [], data);
    assert OldStep(m, act, handle, c2) == Running(5, [0], [], data);
    hide OldStep;
    assert OldRun(m, act, handle, c1, 4) == OldRun(m, act, handle, c2, 3);
  }

  lemma OldLeaves<D>(m: Code, act: (nat, D) -> Act<D>, handle: Handle<D>, data: D)
    requires m == Example() && act(5, data) == Fall(data) && act(6, data) == Return(data)
    ensures OldRun(m, act, handle, Running(5, [0], [], data), 2) == Ended(Finished(data))
  {
    var c4 := OldStep(m, act, handle, Running(5, [0], [], data));
    assert c4 == Running(6, [0], [], data);
    assert OldStep(m, act, handle, c4) == Ended(Finished(data));
    hide OldStep;
    assert OldRun(m, act, handle, c4, 1) == OldRun(m, act, handle, Ended(Finished(data)), 0);
  }

  lemma ListTargets()
    ensures TargetPlace(List(), Sub(0, 3, Top), 7) == Some(4) && TargetPlace(List(), Top, 6) == Some(7)
  {
    hide TargetPlace;
    OnlyTarget(List(), Sub(0, 3, Top), 7, 4);
    OnlyTarget(List(), Top, 6, 7);
  }

  lemma ListParts()
    ensures StartsAs(List())
  {}

  /** The parts of the list that the new run meets. */
  predicate StartsAs(l: seq<CodeRef>) {
    && |l| == 8 && l[0].flag == Skipped && l[1].flag == Skipped && l[2].inumber == 4 && l[2].flag == Normal
    && l[3].inumber == 5 && l[3].flag == Normal && l[4].flag == Skipped && l[5].inumber == 1 && l[5].flag == Normal
  }

  lemma ExampleOffsets(m: Code, refs: seq<CodeRef>)
    requires m == Example() && Numbered(m, refs) && StartsAs(refs)
    ensures Offset(m, refs, 2) == 0 && Offset(m, refs, 3) == 1 && Offset(m, refs, 4) == 4 && Offset(m, refs, 5) == 4
  {
    assert Offset(m, refs, 1) == Advance(m, refs[0], Offset(m, refs, 0));
    assert Offset(m, refs, 2) == Advance(m, refs[1], Offset(m, refs, 1));
    assert Offset(m, refs, 3) == Advance(m, refs[2], Offset(m, refs, 2));
    assert Offset(m, refs, 4) == Advance(m, refs[3], Offset(m, refs, 3));
    assert Offset(m, refs, 5) == Advance(m, refs[4], Offset(m, refs, 4));
  }

  /** The only copy of a target in the same call is where a branch goes. */
  lemma OnlyTarget(refs: seq<CodeRef>, s: Subr, t: nat, q: nat)
    requires q < |refs| && refs[q].sub == s && forall p :: 0 <= p < |refs| ==> (refs[p].inumber == t <==> p == q)
    ensures TargetPlace(refs, s, t) == Some(q)
  {
    OnePlace(refs, t, q);
  }

  lemma {:induction false} OnePlace(refs: seq<CodeRef>, i: nat, q: nat)
    requires q < |refs| && forall p :: 0 <= p < |refs| ==> (refs[p].inumber == i <==> p == q)
    ensures Places(refs, i) == [q]
  {
    if q < |refs| - 1 {
      OnePlace(refs[..|refs| - 1], i, q);
    } else {
      NoPlace(refs[..q], i);
    }
  }

  lemma {:induction false} NoPlace(refs: seq<CodeRef>, i: nat)
    requires forall p :: 0 <= p < |refs| ==> refs[p].inumber != i
    ensures Places(refs, i) == []
  {
    if refs != [] {
      NoPlace(refs[..|refs| - 1], i);
    }
  }

  lemma ExampleResolvable(m: Code)
    requires m == Example()
    ensures Sized(m) && Refs(m) == List() && AllResolvable(m, List(), map[0 := 5])
    ensures EndsKnown(m, List(), map[0 := 5], 0)
  {
    hide Body, TargetPlace, Offset, Refs;
    WrongSuccessor(m);
    ListTargets();
    SubroutineBody(m);
  }

  /** The new code throws: once the subroutine's branch is not taken, it does instruction 1. */
  lemma NewThrows<D>(m: Code, data: D)
    requires m == Example()
    ensures Sized(m) && Refs(m) == List() && EndsKnown(m, List(), map[0 := 5], 0)
            && AllResolvable(m, List(), map[0 := 5])
    ensures NewRun(m, (i, d) => Acts(i, d), Emitted(m, List(), map[0 := 5], 8), [], NewRunning(0, data), 3)
         == NewEnded(Uncaught(data))
  {
    ExampleResolvable(m);
    ListParts();
    ListRun(m, List(), map[0 := 5], (i, d) => Acts(i, d), data);
  }

  lemma ListRun<D>(m: Code, refs: seq<CodeRef>, next: map<nat, nat>, act: (nat, D) -> Act<D>, data: D)
    requires m == Example() && AllResolvable(m, refs, next) && StartsAs(refs)
    requires act(4, data) == Fall(data) && act(5, data) == Fall(data) && act(1, data) == Throw(_ => false, data)
    ensures NewRun(m, act, Emitted(m, refs, next, 8), [], NewRunning(0, data), 3) == NewEnded(Uncaught(data))
  {
    ExampleOffsets(m, refs);
    ListInstrs(m, refs, next);
    PlainFalls(m, act, Instr(m, refs, next, 2), data);
    BranchFalls(m, act, Instr(m, refs, next, 3), data);
    PlainThrows(m, act, Instr(m, refs, next, 5), data);
    PositiveExample(m);
    hide Example, Emitted, Fetch, Offset, AllResolvable, NewStepAt, Instr;
    FetchEmitted(m, refs, next, 2, 8);
    FetchEmitted(m, refs, next, 3, 8);
    FetchEmitted(m, refs, next, 5, 8);
    var code := Emitted(m, refs, next, 8);
    var c1 := NewStep(m, act, code, [], NewRunning(0, data));
    var c2 := NewStep(m, act, code, [], c1);
    var c3 := NewStep(m, act, code, [], c2);
    assert NewRun(m, act, code, [], c1, 2) == NewRun(m, act, code, [], c2, 1);
    assert NewRun(m, act, code, [], c2, 1) == NewRun(m, act, code, [], c3, 0);
  }

  lemma PositiveExample(m: Code)
    requires m == Example()
    ensures forall i :: 0 <= i < |m.lengths| ==> m.lengths[i] > 0
  {}

  lemma PlainFalls<D>(m: Code, act: (nat, D) -> Act<D>, instr: NewInstr, data: D)
    requires m == Example() && instr.op == Copied(4) && instr.size == 1 && act(4, data) == Fall(data)
    ensures Sized(m) && NewStepAt(m, act, instr, [], NewRunning(0, data)) == NewRunning(1, data)
  {}

  lemma BranchFalls<D>(m: Code, act: (nat, D) -> Act<D>, instr: NewInstr, data: D)
    requires m == Example() && instr.op.Branching? && instr.op.i == 5 && instr.size == 3 && act(5, data) == Fall(data)
    ensures Sized(m) && NewStepAt(m, act, instr, [], NewRunning(1, data)) == NewRunning(4, data)
  {}

  lemma PlainThrows<D>(m: Code, act: (nat, D) -> Act<D>, instr: NewInstr, data: D)
    requires m == Example() && instr.op == Copied(1) && act(1, data) == Throw(_ => false, data)
    ensures Sized(m) && NewStepAt(m, act, instr, [], NewRunning(4, data)) == NewEnded(Uncaught(data))
  {}

  lemma ListInstrs(m: Code, refs: seq<CodeRef>, next: map<nat, nat>)
    requires m == Example() && AllResolvable(m, refs, next) && StartsAs(refs)
    ensures Instr(m, refs, next, 2).op == Copied(4) && Instr(m, refs, next, 2).size == 1
    ensures Instr(m, refs, next, 3).op.Branching? && Instr(m, refs, next, 3).op.i == 5
            && Instr(m, refs, next, 3).size == 3
    ensures Instr(m, refs, next, 5).op == Copied(1)
  {
    ExampleOffsets(m, refs);
    hide Offset;
  }
}
