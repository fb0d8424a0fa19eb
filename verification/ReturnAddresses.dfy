/** Why inlining needs return addresses to be stored at once: the new code has none on its stack. */
module ReturnAddresses {
  import opened Wrappers
  import opened Subroutines
  import opened InlinedList
  import opened InlineJsr
  import opened NewCode
  import opened EmittedCode
  import opened ExceptionTable
  import opened CodeOffsets
  import opened InlineRuns

  // ---------- the exact condition ----------

  /** Whatever instructions do to return addresses, the old and the new code end alike. */
  ghost predicate SameOutcomes<D(!new)>(m: Code, act: (nat, D) -> Act<D>, code: seq<NewInstr>, table: seq<CatchFrame>,
                                 data: D)
    requires Sized(m)
  {
    forall handle: Handle<D>, o: Outcome<D> ::
      OldEnds(m, act, handle, Running(0, [], [], data), o) <==> NewEnds(m, act, code, table, NewRunning(0, data), o)
  }

  /** Whatever instructions do to return addresses, none of them is ever done. */
  ghost predicate NeverTaken<D(!new)>(m: Code, act: (nat, D) -> Act<D>, data: D)
    requires Sized(m)
  {
    forall handle: Handle<D> :: HandsOff(m, act, handle, Running(0, [], [], data))
  }

  /** Given what all other instructions do, the new code ends as the old code does if and only if no
      instruction with a return address among its operands is ever done, other than a store. All it
      takes is that there are two different data. */
  lemma SameOutcomesIff<D(!new)>(m: Code, refs: seq<CodeRef>, next: map<nat, nat>, table: seq<CatchFrame>,
                          act: (nat, D) -> Act<D>,
                           data: D, d1: D, d2: D)
    requires Generated(m, refs, next, table) && d1 != d2
    ensures SameOutcomes(m, act, Emitted(m, refs, next, |refs|), table, data) <==> NeverTaken(m, act, data)
  {
    hide Structured, AllResolvable, ShortJumpsFit, TableFor, EndsKnown, Refs, HandsOff, OldEnds, NewEnds, Emitted;
    var code, c := Emitted(m, refs, next, |refs|), Running(0, [], [], data);
    if NeverTaken(m, act, data) {
      forall handle: Handle<D>, o: Outcome<D>
        ensures OldEnds(m, act, handle, c, o) <==> NewEnds(m, act, code, table, NewRunning(0, data), o)
      {
        SameWhenHandsOff(m, refs, next, table, act, handle, data, o);
      }
    } else {
      var handle: Handle<D> :| !HandsOff(m, act, handle, c);
      TakenThrows(m, act, handle, c, d1);
      TakenThrows(m, act, handle, c, d2);
      if SameOutcomes(m, act, code, table, data) {
        assert NewEnds(m, act, code, table, NewRunning(0, data), Uncaught(d1));
        assert NewEnds(m, act, code, table, NewRunning(0, data), Uncaught(d2));
        OneOutcome(m, act, code, table, NewRunning(0, data), Uncaught(d1), Uncaught(d2));
      }
    }
  }

  /** An exception that nothing catches, as the effect of every instruction on return addresses. */
  function Thrower<D>(data: D): Handle<D> {
    (i: nat, d: D, held: seq<nat>) => (Throw(_ => false, data), [])
  }

  lemma TakenThrows<D>(m: Code, act: (nat, D) -> Act<D>, handle: Handle<D>, c: Config<D>, data: D)
    requires Sized(m) && !HandsOff(m, act, handle, c)
    ensures OldEnds(m, act, Thrower(data), c, Uncaught(data))
  {
    hide TakesAddress, OldRun;
    var n: nat :| TakesAddress(m, OldRun(m, act, handle, c, n));
    FirstTaken(m, act, handle, c, n, data);
  }

  /** Up to the first instruction with a return address among its operands, what such instructions do
      is not asked for. */
  lemma {:induction false} FirstTaken<D>(m: Code, act: (nat, D) -> Act<D>, handle: Handle<D>, c: Config<D>, n: nat,
                                         data: D)
    requires Sized(m) && TakesAddress(m, OldRun(m, act, handle, c, n))
    ensures OldEnds(m, act, Thrower(data), c, Uncaught(data))
    decreases n
  {
    hide OldEnds;
    if TakesAddress(m, c) {
      TakerThrows(m, act, c, data);
      OldEndsNow(m, act, Thrower(data), Uncaught(data));
    } else {
      SameUntaken(m, act, handle, Thrower(data), c);
      FirstTaken(m, act, handle, OldStep(m, act, handle, c), n - 1, data);
    }
    OldEndsStep(m, act, Thrower(data), c, Uncaught(data));
  }

  lemma TakerThrows<D>(m: Code, act: (nat, D) -> Act<D>, c: Config<D>, data: D)
    requires Sized(m) && TakesAddress(m, c)
    ensures OldStep(m, act, Thrower(data), c) == Ended(Uncaught(data))
  {
    NothingCaught(m, c.pc, _ => false, |m.handlers|);
  }

  lemma {:induction false} NothingCaught(m: Code, i: nat, caught: nat -> bool, count: nat)
    requires count <= |m.handlers| && forall kind :: !caught(kind)
    ensures OldHandler(m, i, caught, count) == None
  {
    if count > 0 {
      NothingCaught(m, i, caught, count - 1);
    }
  }

  lemma SameUntaken<D>(m: Code, act: (nat, D) -> Act<D>, handle: Handle<D>, other: Handle<D>, c: Config<D>)
    requires Sized(m) && !TakesAddress(m, c)
    ensures OldStep(m, act, handle, c) == OldStep(m, act, other, c)
  {
    hide OldAct, GoTo;
  }

  lemma OneOutcome<D>(m: Code, act: (nat, D) -> Act<D>, code: seq<NewInstr>, table: seq<CatchFrame>, c: NewConfig<D>,
                      o: Outcome<D>, p: Outcome<D>)
    requires Sized(m) && NewEnds(m, act, code, table, c, o) && NewEnds(m, act, code, table, c, p)
    ensures o == p
  {
    hide NewRun;
    var k: nat :| NewRun(m, act, code, table, c, k) == NewEnded(o);
    var n: nat :| NewRun(m, act, code, table, c, n) == NewEnded(p);
    if k <= n {
      StaysEnded(m, act, code, table, c, k, n);
    } else {
      StaysEnded(m, act, code, table, c, n, k);
    }
  }

  lemma {:induction false} StaysEnded<D>(m: Code, act: (nat, D) -> Act<D>, code: seq<NewInstr>, table: seq<CatchFrame>,
                                         c: NewConfig<D>, k: nat, n: nat)
    requires Sized(m) && k <= n && NewRun(m, act, code, table, c, k).NewEnded?
    ensures NewRun(m, act, code, table, c, n) == NewRun(m, act, code, table, c, k)
    decreases k
  {
    hide NewStep;
    if k == 0 {
      NewRunEnded(m, act, code, table, c.outcome, n);
    } else {
      StaysEnded(m, act, code, table, NewStep(m, act, code, table, c), k - 1, n - 1);
    }
  }

  /** Where the analysis finds only stores, nothing is taken, and so the outcomes are the same. */
  lemma StoredNeverTaken<D(!new)>(m: Code, refs: seq<CodeRef>, next: map<nat, nat>, table: seq<CatchFrame>,
                           act: (nat, D) -> Act<D>, data: D)
    requires Generated(m, refs, next, table) && AddressesStored(m)
    ensures NeverTaken(m, act, data)
  {
    EntryAt(m, refs, next, data);
    hide Built, AllResolvable, ShortJumpsFit, TableFor, OldRun, TakesAddress, At, AddressesStored;
    var c := Running(0, [], [], data);
    forall handle: Handle<D>, n: nat
      ensures !TakesAddress(m, OldRun(m, act, handle, c, n))
    {
      StoredNotTaken(m, refs, next, table, act, handle, c, 0, n);
    }
  }

  // ---------- a method that duplicates a return address ----------

  /** The subroutine at 2 duplicates its return address, stores it, drops the other one and returns. */
  function Example(): Code {
    Code([Jsr(2, true), Exit, Plain, StoreReturn, Plain, Ret], [3, 1, 1, 1, 1, 2], [true, true, true, true, true, true],
         [[], [], [2], [2], [2], [2]], [], [false, false, true, true, true, false])
  }

  function List(): seq<CodeRef> {
    var s := Sub(0, 2, Top);
    [CodeRef(0, Top, Skipped), CodeRef(2, s, Normal), CodeRef(3, s, Skipped), CodeRef(4, s, Normal),
    CodeRef(5, s, Skipped),
     CodeRef(1, Top, Normal)]
  }

  /** What the instructions do to an operand stack, if there are no return addresses on it. */
  function Acts(i: nat, stack: seq<int>): Act<seq<int>> {
    if i == 1 then Return(stack)
    else if stack == [] then Throw(_ => false, stack)
    else if i == 2 then Fall(stack + [stack[|stack| - 1]])
    else Fall(stack[..|stack| - 1])
  }

  /** What they do when the topmost operand is a return address. */
  function Handles(i: nat, stack: seq<int>, held: seq<nat>): (Act<seq<int>>, seq<nat>) {
    (Fall(stack), if held == [] then [] else if i == 2 then held + [held[|held| - 1]] else held[..|held| - 1])
  }

  lemma ExampleStructured(m: Code)
    requires m == Example()
    ensures Structured(m) && !AddressesStored(m)
  {
    hide StructuredAt;
    assert Sized(m);
    forall i | 0 <= i < |m.ops|
      ensures StructuredAt(m, i)
    {
      InstructionStructured(m, i);
    }
    assert m.reached[2] && m.onAddress[2] && !m.ops[2].StoreReturn?;
    assert OneRet(m) by { OneRetOnly(m); }
  }

  lemma OneRetOnly(m: Code)
    requires m == Example()
    ensures Sized(m) && OneRet(m)
  {}

  lemma InstructionStructured(m: Code, i: nat)
    requires m == Example() && i < 6
    ensures Sized(m) && StructuredAt(m, i)
  {
    assert m.chains[0] + [2] == [2];
  }

  lemma ExampleList(m: Code)
    requires m == Example()
    ensures Sized(m) && Refs(m) == List()
  {
    hide Body, Inner, Chain, Depth;
    SubroutineBody(m);
    MainBody(m);
    ChainsAre();
    var inner, rest := Body(m, Sub(0, 2, Top), 0, 1), Body(m, Top, 1, 5);
    BodyCall(m, Top, 0, 0, 2);
    hide Example;
    assert Body(m, Top, 0, 0) == [CodeRef(0, Top, Skipped)] + inner + rest;
  }

  lemma ChainsAre()
    ensures Chain(Top) == [] && Chain(Sub(0, 2, Top)) == [2]
  {}

  lemma MainBody(m: Code)
    requires m == Example()
    ensures Sized(m) && Body(m, Top, 1, 5) == [CodeRef(1, Top, Normal)]
  {
    ChainsAre();
    hide Body, Inner, Chain, Depth;
    BodyEnd(m, Top, 6, 6);
    BodySkipTo(m, Top, 2, 6, 6);
    BodyPlain(m, Top, 1, 5);
  }

  lemma SubroutineBody(m: Code)
    requires m == Example()
    ensures var s := Sub(0, 2, Top);
            Sized(m) && Body(m, s, 0, 1) == [CodeRef(2, s, Normal), CodeRef(3, s, Skipped), CodeRef(4, s, Normal),
              CodeRef(5, s, Skipped)]
  {
    var s := Sub(0, 2, Top);
    hide Body, Inner, Chain, Depth;
    SubroutineEnd(m);
    WhereIncluded(m);
    hide Example, Included;
    BodyOf(m, s);
  }

  lemma BodyOf(m: Code, s: Subr)
    requires Sized(m) && |m.ops| == 6 && m.ops[2].Plain? && Included(m, s, 2)
    requires forall k :: 0 <= k < 2 ==> !Included(m, s, k)
    requires Body(m, s, 3, 2) == [CodeRef(3, s, Skipped), CodeRef(4, s, Normal), CodeRef(5, s, Skipped)]
    ensures Body(m, s, 0, 1) ==
            [CodeRef(2, s, Normal), CodeRef(3, s, Skipped), CodeRef(4, s, Normal), CodeRef(5, s, Skipped)]
  {
    hide Body, Included;
    BodyPlain(m, s, 2, 1);
    BodySkipTo(m, s, 0, 2, 1);
  }

  lemma WhereIncluded(m: Code)
    requires m == Example()
    ensures Sized(m) && |m.ops| == 6 && m.ops[2].Plain? && Included(m, Sub(0, 2, Top), 2)
    ensures forall k :: 0 <= k < 2 ==> !Included(m, Sub(0, 2, Top), k)
  {
    ChainsAre();
  }

  lemma SubroutineEnd(m: Code)
    requires m == Example()
    ensures var s := Sub(0, 2, Top);
            Sized(m) && Body(m, s, 3, 2) == [CodeRef(3, s, Skipped), CodeRef(4, s, Normal), CodeRef(5, s, Skipped)]
  {
    var s := Sub(0, 2, Top);
    ChainsAre();
    hide Body, Inner, Chain, Depth;
    BodyEnd(m, s, 6, 5);
    BodyRet(m, s, 5, 4);
    BodyPlain(m, s, 4, 3);
    BodyStore(m, s, 3, 2);
  }

  /** The example is rewritten without complaint. */
  lemma ExampleGenerated(m: Code)
    requires m == Example()
    ensures Generated(m, List(), map[0 := 5], [])
  {
    hide Body, Offset, Refs, Structured, Resolvable;
    ExampleStructured(m);
    ExampleList(m);
    SubroutineBody(m);
    assert Numbered(m, List());
    assert EndsKnown(m, List(), map[0 := 5], 0);
    BuiltResolvable(m, List(), map[0 := 5]);
    assert ShortJumpsFit(m, List(), map[0 := 5]);
  }

  /** The old code returns, with an empty stack. */
  lemma OldReturns(m: Code)
    requires m == Example()
    ensures Sized(m)
    ensures OldRun(m, (i, d) => Acts(i, d), (i, d, h) => Handles(i, d, h), Running(0, [], [], []), 6)
            == Ended(Finished([]))
  {
    var act := (i: nat, d: seq<int>) => Acts(i, d);
    var handle := (i: nat, d: seq<int>, h: seq<nat>) => Handles(i, d, h);
    assert handle(2, [], [0]) == (Fall([]), [0, 0]) by { assert [0] + [0] == [0, 0]; }
    assert handle(4, [], [0]) == (Fall([]), []);
    OldStores(m, act, handle);
    OldDrops(m, act, handle);
  }

  lemma OldStores(m: Code, act: (nat, seq<int>) -> Act<seq<int>>, handle: Handle<seq<int>>)
    requires m == Example() && handle(2, [], [0]) == (Fall([]), [0, 0])
    ensures OldRun(m, act, handle, Running(0, [], [], []), 6) == OldRun(m, act, handle, Running(4, [0], [0], []), 3)
  {
    var none: seq<int> := [];
    var c1 := OldStep(m, act, handle, Running(0, [], [], none));
    assert c1 == Running(2, [0], [0], none);
    var c2 := OldStep(m, act, handle, c1);
    assert c2 == Running(3, [0], [0, 0], none);
    assert OldStep(m, act, handle, c2) == Running(4, [0], [0], none);
    hide OldStep;
    assert OldRun(m, act, handle, c1, 5) == OldRun(m, act, handle, c2, 4);
  }

  lemma OldDrops(m: Code, act: (nat, seq<int>) -> Act<seq<int>>, handle: Handle<seq<int>>)
    requires m == Example() && handle(4, [], [0]) == (Fall([]), []) && act(1, []) == Return([])
    ensures OldRun(m, act, handle, Running(4, [0], [0], []), 3) == Ended(Finished([]))
  {
    var none: seq<int> := [];
    var c4 := OldStep(m, act, handle, Running(4, [0], [0], none));
    assert c4 == Running(5, [0], [], none);
    var c5 := OldStep(m, act, handle, c4);
    assert c5 == Running(1, [], [], none);
    assert OldStep(m, act, handle, c5) == Ended(Finished(none));
    hide OldStep;
    assert OldRun(m, act, handle, c4, 2) == OldRun(m, act, handle, c5, 1);
    assert OldRun(m, act, handle, c5, 1) == OldRun(m, act, handle, Ended(Finished(none)), 0);
  }

  /** The new code duplicates the top of an empty stack. */
  lemma NewThrows(m: Code)
    requires m == Example()
    ensures Generated(m, List(), map[0 := 5], [])
    ensures NewRun(m, (i, d) => Acts(i, d), Emitted(m, List(), map[0 := 5], 6), [], NewRunning(0, []), 1)
            == NewEnded(Uncaught([]))
  {
    ExampleGenerated(m);
    FirstOfList(m, List());
    FirstThrows(m, List(), map[0 := 5], (i: nat, d: seq<int>) => Acts(i, d));
  }

  lemma FirstOfList(m: Code, refs: seq<CodeRef>)
    requires m == Example() && refs == List() && Numbered(m, refs)
    ensures |refs| == 6 && refs[1].inumber == 2 && refs[1].flag == Normal && Offset(m, refs, 1) == 0
  {
    assert Offset(m, refs, 1) == Advance(m, refs[0], Offset(m, refs, 0));
  }

  lemma FirstThrows(m: Code, refs: seq<CodeRef>, next: map<nat, nat>, act: (nat, seq<int>) -> Act<seq<int>>)
    requires m == Example() && Generated(m, refs, next, [])
    requires |refs| == 6 && refs[1].inumber == 2 && refs[1].flag == Normal && Offset(m, refs, 1) == 0
    requires act(2, []) == Throw(_ => false, [])
    ensures NewRun(m, act, Emitted(m, refs, next, 6), [], NewRunning(0, []), 1) == NewEnded(Uncaught([]))
  {
    hide Structured, Refs, EndsKnown, AllResolvable, ShortJumpsFit, TableFor, Offset, Emitted, NewStep;
    CopyThrows(m, act, Instr(m, refs, next, 1)) by { assert Resolvable(m, refs, next, 1); }
    NewStepIs(m, refs, next, [], act, 1, []);
    var c1 := NewStep(m, act, Emitted(m, refs, next, 6), [], NewRunning(0, []));
    assert NewRun(m, act, Emitted(m, refs, next, 6), [], c1, 0) == c1;
  }

  lemma CopyThrows(m: Code, act: (nat, seq<int>) -> Act<seq<int>>, instr: NewInstr)
    requires m == Example() && instr.op == Copied(2) && act(2, []) == Throw(_ => false, [])
    ensures Sized(m) && NewStepAt(m, act, instr, [], NewRunning(0, [])) == NewEnded(Uncaught([]))
  {}
}
