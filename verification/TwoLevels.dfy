/** Why inlining needs each subroutine to be called at one level only: a method that calls one from
    another subroutine as well as from outside, as a return inside nested finally blocks does. */
module TwoLevels {
  import opened Wrappers
  import opened Subroutines
  import opened InlinedList
  import opened InlineJsr
  import opened NewCode
  import opened EmittedCode
  import opened ExceptionTable
  import opened InlineRuns
  import opened Placement
  import FallingOut

  /** Instructions 0 and 7 call subroutine 4, which stores its return address, makes a value and tests
      it: it returns from 9, or calls subroutine 10 at 7 and leaves the method at 8. Instruction 2 calls
      subroutine 10 too, so that merging leaves 10 to 12 in that subroutine alone. */
  function Example(): Code {
    Code([Jsr(4, true), Plain, Jsr(10, true), Exit, StoreReturn, Plain, If(9), Jsr(10, true), Exit, Ret, StoreReturn,
    Plain, Ret],
         [3, 1, 3, 1, 1, 1, 3, 3, 1, 2, 1, 1, 2],
         [true, true, true, true, true, true, true, true, true, true, true, true, true],
         [[], [], [], [], [4], [4], [4], [4], [], [4], [10], [10], [10]], [],
         [false, false, false, false, true, false, false, false, false, false, true, false, false])
  }

  function Outer(): Subr {
    Sub(0, 4, Top)
  }

  function Inner10(): Subr {
    Sub(7, 10, Top)
  }

  function List(): seq<CodeRef> {
    [CodeRef(0, Top, Skipped), CodeRef(4, Outer(), Skipped), CodeRef(5, Outer(), Normal), CodeRef(6, Outer(), Normal),
     CodeRef(7, Outer(), Skipped), CodeRef(9, Outer(), Skipped), CodeRef(1, Top, Normal), CodeRef(2, Top, Skipped),
     CodeRef(10, Inner10(), Skipped), CodeRef(11, Inner10(), Normal), CodeRef(12, Inner10(), Skipped),
     CodeRef(3, Top, Normal), CodeRef(8, Top, Normal)]
  }

  // ---------- what is wrong with it ----------

  /** All that is wrong with the method is its jsr at 7. */
  lemma OnlyFault()
    ensures Sized(Example()) && AddressesStored(Example()) && OneRet(Example())
    ensures forall i :: 0 <= i < 13 && i != 7 ==> StructuredAt(Example(), i)
    ensures !StructuredAt(Example(), 7) && Example().chains[10] != Example().chains[7] + [10]
  {
    ExampleOneRet();
    FaultAt7();
    hide StructuredAt, OneRet;
    forall i | 0 <= i < 13 && i != 7
      ensures StructuredAt(Example(), i)
    {
      if i < 4 {
        MainStructured(i);
      } else if i < 9 {
        OuterStructured(i);
      } else {
        RestStructured(i);
      }
    }
  }

  lemma ExampleOneRet()
    ensures Sized(Example()) && OneRet(Example())
  {
    var m := Example();
    assert forall i :: 0 <= i < 13 && m.ops[i].Ret? ==> i == 9 || i == 12;
  }

  lemma FaultAt7()
    ensures Sized(Example()) && !StructuredAt(Example(), 7) && Example().chains[10] != Example().chains[7] + [10]
  {
    var m := Example();
    assert |m.chains[10]| == 1 && |m.chains[7] + [10]| == 2;
  }

  lemma MainStructured(i: nat)
    requires i < 4
    ensures StructuredAt(Example(), i)
  {
    var m := Example();
    assert m.chains[0] + [4] == [4] && m.chains[2] + [10] == [10];
  }

  lemma OuterStructured(i: nat)
    requires 4 <= i < 9 && i != 7
    ensures StructuredAt(Example(), i)
  {}

  lemma RestStructured(i: nat)
    requires 9 <= i < 13
    ensures StructuredAt(Example(), i)
  {}

  // ---------- its list: nothing is inlined for the jsr at 7 ----------

  lemma ChainsAre()
    ensures Chain(Top) == [] && Chain(Outer()) == [4] && Chain(Inner10()) == [10]
            && Chain(Sub(4, 10, Outer())) == [4, 10]
  {}

  lemma ExampleList(m: Code)
    requires m == Example()
    ensures Sized(m) && Refs(m) == List()
  {
    OuterIncluded(m);
    TopIncluded(m);
    InnerIncluded(m);
    ListOf(m);
  }

  lemma OuterIncluded(m: Code)
    requires m == Example()
    ensures Sized(m) && OuterFacts(m)
  {
    ChainsAre();
  }

  lemma TopIncluded(m: Code)
    requires m == Example()
    ensures Sized(m) && TopFacts(m)
  {
    ChainsAre();
  }

  lemma InnerIncluded(m: Code)
    requires m == Example()
    ensures Sized(m) && InnerFacts(m)
  {
    ChainsAre();
  }

  predicate OuterFacts(m: Code)
    requires Sized(m)
  {
    && |m.ops| == 13 && m.ops[4].StoreReturn? && m.ops[5].Plain? && m.ops[6].If? && m.ops[7] == Jsr(10, true)
       && m.ops[9].Ret?
    && Included(m, Outer(), 4) && Included(m, Outer(), 5) && Included(m, Outer(), 6) && Included(m, Outer(), 7)
    && Included(m, Outer(), 9) && !Included(m, Outer(), 8)
    && (forall k :: 0 <= k < 4 ==> !Included(m, Outer(), k)) && (forall k :: 10 <= k < 13 ==> !Included(m, Outer(), k))
    && forall k :: 0 <= k < 13 ==> !Included(m, Sub(4, 10, Outer()), k)
  }

  predicate TopFacts(m: Code)
    requires Sized(m)
  {
    && |m.ops| == 13 && m.ops[0] == Jsr(4, true) && m.ops[1].Plain? && m.ops[2] == Jsr(10, true) && m.ops[3].Exit?
       && m.ops[8].Exit?
    && Included(m, Top, 0) && Included(m, Top, 1) && Included(m, Top, 2) && Included(m, Top, 3) && Included(m, Top, 8)
    && (forall k :: 4 <= k < 8 ==> !Included(m, Top, k)) && forall k :: 9 <= k < 13 ==> !Included(m, Top, k)
  }

  predicate InnerFacts(m: Code)
    requires Sized(m)
  {
    && |m.ops| == 13 && m.ops[10].StoreReturn? && m.ops[11].Plain? && m.ops[12].Ret?
    && Included(m, Inner10(), 10) && Included(m, Inner10(), 11) && Included(m, Inner10(), 12)
    && forall k :: 0 <= k < 10 ==> !Included(m, Inner10(), k)
  }

  /** What is made for the call at 0. The call at 7 adds nothing but its own dropped copy. */
  lemma OuterBody(m: Code)
    requires Sized(m) && OuterFacts(m)
    ensures Body(m, Outer(), 0, 1) ==
            [CodeRef(4, Outer(), Skipped), CodeRef(5, Outer(), Normal), CodeRef(6, Outer(), Normal),
            CodeRef(7, Outer(), Skipped),
             CodeRef(9, Outer(), Skipped)]
  {
    var s := Outer();
    OuterEnd(m);
    hide Body, Included, Outer;
    BodyPlain(m, s, 6, 3);
    BodyPlain(m, s, 5, 2);
    BodyStore(m, s, 4, 1);
    BodySkipTo(m, s, 0, 4, 1);
  }

  lemma OuterEnd(m: Code)
    requires Sized(m) && OuterFacts(m)
    ensures Body(m, Outer(), 7, 4) == [CodeRef(7, Outer(), Skipped), CodeRef(9, Outer(), Skipped)]
  {
    var s := Outer();
    hide Body, Included, Outer;
    BodySkipTo(m, s, 10, 13, 6);
    BodyEnd(m, s, 13, 6);
    BodyRet(m, s, 9, 5);
    BodySkip(m, s, 8, 5);
    BodySkipTo(m, Sub(4, 10, s), 0, 13, 5);
    BodyEnd(m, Sub(4, 10, s), 13, 5);
    BodyCallEmpty(m, s, 7, 4, 10);
  }

  lemma InnerBody(m: Code)
    requires Sized(m) && InnerFacts(m)
    ensures Body(m, Inner10(), 0, 8) ==
            [CodeRef(10, Inner10(), Skipped), CodeRef(11, Inner10(), Normal), CodeRef(12, Inner10(), Skipped)]
  {
    var s := Inner10();
    hide Body, Included, Inner10;
    BodyEnd(m, s, 13, 11);
    BodyRet(m, s, 12, 10);
    BodyPlain(m, s, 11, 9);
    BodyStore(m, s, 10, 8);
    BodySkipTo(m, s, 0, 10, 8);
  }

  lemma TopEnd(m: Code)
    requires Sized(m) && TopFacts(m)
    ensures Body(m, Top, 3, 11) == [CodeRef(3, Top, Normal), CodeRef(8, Top, Normal)]
  {
    hide Body, Included;
    BodySkipTo(m, Top, 9, 13, 13);
    BodyEnd(m, Top, 13, 13);
    BodyPlain(m, Top, 8, 12);
    BodySkipTo(m, Top, 4, 8, 12);
    BodyPlain(m, Top, 3, 11);
  }

  lemma TopRest(m: Code)
    requires Sized(m) && TopFacts(m) && InnerFacts(m)
    ensures Body(m, Top, 1, 6) ==
            [CodeRef(1, Top, Normal), CodeRef(2, Top, Skipped), CodeRef(10, Inner10(), Skipped),
            CodeRef(11, Inner10(), Normal),
             CodeRef(12, Inner10(), Skipped), CodeRef(3, Top, Normal), CodeRef(8, Top, Normal)]
  {
    InnerBody(m);
    TopEnd(m);
    hide Body, Included;
    BodyCall(m, Top, 2, 7, 10);
    BodyPlain(m, Top, 1, 6);
  }

  lemma ListOf(m: Code)
    requires Sized(m) && TopFacts(m) && OuterFacts(m) && InnerFacts(m)
    ensures Refs(m) == List()
  {
    OuterBody(m);
    TopRest(m);
    hide Body, Included;
    BodyCall(m, Top, 0, 0, 4);
    assert Body(m, Top, 0, 0) == [CodeRef(0, Top, Skipped)] + Body(m, Outer(), 0, 1) + Body(m, Top, 1, 6);
  }

  /** No copy of the target is made for the call at 7. */
  lemma NothingInlined(m: Code)
    requires m == Example()
    ensures Sized(m) && Refs(m)[4] == CodeRef(7, Outer(), Skipped)
    ensures !exists q :: CopyAt(Refs(m), q, 10, Sub(4, 10, Outer()))
  {
    ExampleList(m);
    FaultAt7();
    hide StructuredAt, Refs;
    CallEntersIff(m, Refs(m), 4, 7);
  }

  // ---------- its two runs ----------

  function Ends(): map<nat, nat> {
    map[0 := 6, 4 := 5, 7 := 11]
  }

  lemma EmptyCall(m: Code)
    requires Sized(m) && OuterFacts(m)
    ensures Body(m, Sub(4, 10, Outer()), 0, 5) == []
  {
    hide Body, Included, Outer;
    BodySkipTo(m, Sub(4, 10, Outer()), 0, 13, 5);
    BodyEnd(m, Sub(4, 10, Outer()), 13, 5);
  }

  /** Where the list has calls, and what for. */
  predicate CallFacts(m: Code, refs: seq<CodeRef>)
    requires Sized(m)
  {
    && |refs| == 13 && (forall q :: 0 <= q < 13 ==> refs[q].inumber < |m.ops|)
    && (forall q :: 0 <= q < 13 && Calls(m, refs[q].inumber) ==> q == 0 || q == 4 || q == 7)
    && refs[0].sub == Top && m.ops[refs[0].inumber] == Jsr(4, true)
    && refs[4].sub == Outer() && m.ops[refs[4].inumber] == Jsr(10, true)
    && refs[7].sub == Top && m.ops[refs[7].inumber] == Jsr(10, true)
  }

  lemma ListCalls(m: Code)
    requires m == Example()
    ensures Sized(m) && CallFacts(m, List())
  {}

  lemma EndsOf(m: Code, refs: seq<CodeRef>)
    requires Sized(m) && CallFacts(m, refs) && OuterFacts(m) && InnerFacts(m)
    ensures EndsKnown(m, refs, Ends(), 0)
  {
    OuterBody(m);
    InnerBody(m);
    EmptyCall(m);
    hide Body, Included, OuterFacts, InnerFacts;
  }

  /** Which instructions look something up. */
  predicate JumpingOps(m: Code)
    requires Sized(m)
  {
    && |m.ops| == 13 && m.ops[6] == If(9)
    && (forall i :: 0 <= i < 13 && m.ops[i].If? ==> i == 6)
       && (forall i :: 0 <= i < 13 && m.ops[i].Jsr? ==> i == 0 || i == 2 || i == 7)
    && (forall i :: 0 <= i < 13 && m.ops[i].Ret? ==> i == 9 || i == 12)
    && forall i :: 0 <= i < 13 ==> !m.ops[i].Goto? && !m.ops[i].Switch?
  }

  lemma ExampleJumps(m: Code)
    requires m == Example()
    ensures Sized(m) && JumpingOps(m)
  {}

  /** Where their copies stand. */
  predicate JumpingCopies(refs: seq<CodeRef>) {
    && |refs| == 13 && (forall p :: 0 <= p < 13 ==> refs[p].inumber < 13)
    && (forall p :: 0 <= p < 13 && refs[p].inumber == 6 ==> refs[p].sub == Outer())
    && (forall p :: 0 <= p < 13 && (refs[p].inumber == 0 || refs[p].inumber == 2 || refs[p].inumber == 7) ==>
       refs[p].flag == Skipped)
    && forall p :: 0 <= p < 13 && (refs[p].inumber == 9 || refs[p].inumber == 12) ==>
         refs[p].sub.Sub? && (refs[p].sub.caller == 0 || refs[p].sub.caller == 7)
  }

  lemma ListJumps()
    ensures JumpingCopies(List())
  {}

  lemma ResolvableOf(m: Code, refs: seq<CodeRef>)
    requires Sized(m) && JumpingOps(m) && JumpingCopies(refs) && TargetPlace(refs, Outer(), 9).Some?
    ensures AllResolvable(m, refs, Ends())
  {
    hide TargetPlace;
  }

  lemma ExampleResolvable(m: Code)
    requires m == Example()
    ensures Sized(m) && Refs(m) == List() && EndsKnown(m, List(), Ends(), 0) && AllResolvable(m, List(), Ends())
  {
    OuterIncluded(m);
    InnerIncluded(m);
    ExampleList(m);
    ListCalls(m);
    ExampleJumps(m);
    ListJumps();
    assert TargetPlace(List(), Outer(), 9).Some? by { BranchTarget(); }
    hide Refs, Body, TargetPlace, OuterFacts, InnerFacts, EndsKnown, CallFacts, JumpingOps, JumpingCopies;
    hide AllResolvable, Example, List;
    EndsOf(m, List());
    ResolvableOf(m, List());
  }

  lemma BranchTarget()
    ensures TargetPlace(List(), Outer(), 9) == Some(5)
  {
    FallingOut.OnlyTarget(List(), Outer(), 9, 5);
  }

  /** Instruction 1 throws, 3 and 8 return, and all others go on to the next. */
  function Acts<D>(i: nat, data: D): Act<D> {
    if i == 1 then Throw(_ => false, data) else if i == 3 || i == 8 then Return(data) else Fall(data)
  }

  /** The old code calls subroutine 10 from subroutine 4, and returns at 8. */
  lemma OldReturns<D>(m: Code, handle: Handle<D>, data: D)
    requires m == Example()
    ensures Sized(m) && OldRun(m, (i, d) => Acts(i, d), handle, Running(0, [], [], data), 9) == Ended(Finished(data))
  {
    ExampleRuns(m);
    hide Example, RunFacts;
    var act := (i: nat, d: D) => Acts(i, d);
    OldEnters(m, act, handle, data);
    OldCalls(m, act, handle, data);
    OldLeaves(m, act, handle, data);
  }

  /** The instructions that the old run meets. */
  predicate RunFacts(m: Code)
    requires Sized(m)
  {
    && |m.ops| == 13 && m.ops[0] == Jsr(4, true) && m.ops[4].StoreReturn? && m.ops[5].Plain? && m.ops[6].If?
    && m.ops[7] == Jsr(10, true) && m.ops[8].Exit? && m.ops[10].StoreReturn? && m.ops[11].Plain? && m.ops[12].Ret?
    && !m.onAddress[5] && !m.onAddress[6] && !m.onAddress[8] && !m.onAddress[11]
  }

  lemma ExampleRuns(m: Code)
    requires m == Example()
    ensures Sized(m) && RunFacts(m)
  {}

  lemma OldEnters<D>(m: Code, act: (nat, D) -> Act<D>, handle: Handle<D>, data: D)
    requires Sized(m) && RunFacts(m) && act(5, data) == Fall(data)
    ensures OldRun(m, act, handle, Running(0, [], [], data), 9) == OldRun(m, act, handle, Running(6, [0], [], data), 6)
  {
    hide OldStep;
    var c1 := Running(4, [0], [0], data);
    var c2 := Running(5, [0], [], data);
    CallStep(m, act, handle, Running(0, [], [], data));
    Stores(m, act, handle, c1);
    FallsOn(m, act, handle, c2);
    assert [] + [0] == [0] && ButLast([0]) == [];
    assert OldRun(m, act, handle, c1, 8) == OldRun(m, act, handle, c2, 7);
  }

  lemma OldCalls<D>(m: Code, act: (nat, D) -> Act<D>, handle: Handle<D>, data: D)
    requires Sized(m) && RunFacts(m) && act(6, data) == Fall(data)
    ensures OldRun(m, act, handle, Running(6, [0], [], data), 6)
            == OldRun(m, act, handle, Running(11, [0, 7], [], data), 3)
  {
    hide OldStep;
    var c4 := Running(7, [0], [], data);
    var c5 := Running(10, [0, 7], [7], data);
    FallsOn(m, act, handle, Running(6, [0], [], data));
    CallStep(m, act, handle, c4);
    assert [0] + [7] == [0, 7] && c4.held + [7] == [7];
    Stores(m, act, handle, c5);
    assert ButLast([7]) == [];
    assert OldRun(m, act, handle, c4, 5) == OldRun(m, act, handle, c5, 4);
  }

  lemma OldLeaves<D>(m: Code, act: (nat, D) -> Act<D>, handle: Handle<D>, data: D)
    requires Sized(m) && RunFacts(m) && act(11, data) == Fall(data) && act(8, data) == Return(data)
    ensures OldRun(m, act, handle, Running(11, [0, 7], [], data), 3) == Ended(Finished(data))
  {
    hide OldStep;
    var c7 := Running(12, [0, 7], [], data);
    var c8 := Running(8, [0], [], data);
    FallsOn(m, act, handle, Running(11, [0, 7], [], data));
    ComesBack(m, act, handle, c7);
    assert [0, 7][..1] == [0];
    Returns(m, act, handle, c8);
    assert OldRun(m, act, handle, c7, 2) == OldRun(m, act, handle, c8, 1);
    assert OldRun(m, act, handle, c8, 1) == OldRun(m, act, handle, Ended(Finished(data)), 0);
  }

  /** The new code does instruction 1, as if subroutine 4 had returned from 9. */
  lemma NewThrows<D>(m: Code, data: D)
    requires m == Example()
    ensures Sized(m) && Refs(m) == List() && EndsKnown(m, List(), Ends(), 0) && AllResolvable(m, List(), Ends())
    ensures NewRun(m, (i, d) => Acts(i, d), Emitted(m, List(), Ends(), 13), [], NewRunning(0, data), 3)
         == NewEnded(Uncaught(data))
  {
    ExampleResolvable(m);
    ListStarts();
    ListRun(m, List(), Ends(), (i, d) => Acts(i, d), data);
  }

  lemma ListStarts()
    ensures StartsAs(List())
  {}

  /** The parts of the list that the new run meets. */
  predicate StartsAs(l: seq<CodeRef>) {
    && |l| == 13 && l[0].flag == Skipped && l[1].flag == Skipped && l[2].inumber == 5 && l[2].flag == Normal
    && l[3].inumber == 6 && l[3].flag == Normal && l[4].flag == Skipped && l[5].flag == Skipped
    && l[6].inumber == 1 && l[6].flag == Normal
  }

  lemma ListOffsets(m: Code, refs: seq<CodeRef>)
    requires m == Example() && Numbered(m, refs) && StartsAs(refs)
    ensures Offset(m, refs, 2) == 0 && Offset(m, refs, 3) == 1 && Offset(m, refs, 4) == 4 && Offset(m, refs, 6) == 4
  {
    assert Offset(m, refs, 1) == Advance(m, refs[0], Offset(m, refs, 0));
    assert Offset(m, refs, 2) == Advance(m, refs[1], Offset(m, refs, 1));
    assert Offset(m, refs, 3) == Advance(m, refs[2], Offset(m, refs, 2));
    assert Offset(m, refs, 4) == Advance(m, refs[3], Offset(m, refs, 3));
    assert Offset(m, refs, 5) == Advance(m, refs[4], Offset(m, refs, 4));
    assert Offset(m, refs, 6) == Advance(m, refs[5], Offset(m, refs, 5));
  }

  lemma ListInstrs(m: Code, refs: seq<CodeRef>, next: map<nat, nat>)
    requires m == Example() && AllResolvable(m, refs, next) && StartsAs(refs)
    ensures Instr(m, refs, next, 2).op == Copied(5) && Instr(m, refs, next, 2).size == 1
    ensures Instr(m, refs, next, 3).op.Branching? && Instr(m, refs, next, 3).op.i == 6
            && Instr(m, refs, next, 3).size == 3
    ensures Instr(m, refs, next, 6).op == Copied(1)
  {
    ListOffsets(m, refs);
    hide Offset;
  }

  lemma ListRun<D>(m: Code, refs: seq<CodeRef>, next: map<nat, nat>, act: (nat, D) -> Act<D>, data: D)
    requires m == Example() && AllResolvable(m, refs, next) && StartsAs(refs)
    requires act(5, data) == Fall(data) && act(6, data) == Fall(data) && act(1, data) == Throw(_ => false, data)
    ensures NewRun(m, act, Emitted(m, refs, next, 13), [], NewRunning(0, data), 3) == NewEnded(Uncaught(data))
  {
    ListOffsets(m, refs);
    ListInstrs(m, refs, next);
    ListSteps(m, act, Instr(m, refs, next, 2), Instr(m, refs, next, 3), Instr(m, refs, next, 6), data);
    PositiveExample(m);
    hide Example, Emitted, Fetch, Offset, AllResolvable, NewStepAt, Instr;
    FetchEmitted(m, refs, next, 2, 13);
    FetchEmitted(m, refs, next, 3, 13);
    FetchEmitted(m, refs, next, 6, 13);
    var code := Emitted(m, refs, next, 13);
    var c1 := NewStep(m, act, code, [], NewRunning(0, data));
    var c2 := NewStep(m, act, code, [], c1);
    var c3 := NewStep(m, act, code, [], c2);
    assert NewRun(m, act, code, [], c1, 2) == NewRun(m, act, code, [], c2, 1);
    assert NewRun(m, act, code, [], c2, 1) == NewRun(m, act, code, [], c3, 0);
  }

  lemma PositiveExample(m: Code)
    requires m == Example()
    ensures forall i :: 0 <= i < |m.lengths| ==> m.lengths[i] > 0
  {}

  lemma ListSteps<D>(m: Code, act: (nat, D) -> Act<D>, first: NewInstr, second: NewInstr, third: NewInstr, data: D)
    requires m == Example() && first.op == Copied(5) && first.size == 1 && third.op == Copied(1)
    requires second.op.Branching? && second.op.i == 6 && second.size == 3
    requires act(5, data) == Fall(data) && act(6, data) == Fall(data) && act(1, data) == Throw(_ => false, data)
    ensures Sized(m)
    ensures NewStepAt(m, act, first, [], NewRunning(0, data)) == NewRunning(1, data)
    ensures NewStepAt(m, act, second, [], NewRunning(1, data)) == NewRunning(4, data)
    ensures NewStepAt(m, act, third, [], NewRunning(4, data)) == NewEnded(Uncaught(data))
  {}
}
