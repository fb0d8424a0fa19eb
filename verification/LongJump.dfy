/** A branch whose displacement no longer fits in its two bytes: inlining has made the code between the
    branch and its target longer. */
module LongJump {
  import opened Wrappers
  import opened Subroutines
  import opened InlinedList
  import opened InlineJsr
  import opened NewCode
  import opened EmittedCode
  import opened ExceptionTable
  import opened CodeOffsets
  import opened InlineRuns
  import FallingOut

  // ---------- the exact condition ----------

  /** The displacement that is written is the one that is meant exactly if that fits in two bytes. */
  lemma WrittenIff(m: Code, refs: seq<CodeRef>, next: map<nat, nat>, p: nat)
    requires Numbered(m, refs) && p < |refs| && Resolvable(m, refs, next, p) && ShortJump(m, refs, next, p).Some?
    ensures var v := ShortJump(m, refs, next, p).value;
            (match EmittedOp(m, refs, next, p)
             case Branching(_, displacement) => displacement == v
             case PlainGoto(displacement) => displacement == v
             case _ => false)
            <==> -32768 <= v < 32768
  {
    hide Offset, Displacement, Displacements, TargetPlace;
  }

  // ---------- a method with such a branch ----------

  /** The instructions of the example, with `n` of one byte in its subroutine at 4. */
  function OpOf(n: nat, i: nat): Op {
    if i == 0 then If(3) else if i == 1 || i == 2 then Jsr(4, true) else if i == 3 then Exit
    else if i == 4 then StoreReturn else if i < 5 + n then Plain else Ret
  }

  function LengthOf(n: nat, i: nat): nat {
    if i < 3 then 3 else if i < 5 + n then 1 else 2
  }

  /** Instruction 0 branches across two calls of the subroutine, or does them. */
  function Example(n: nat): (m: Code)
    ensures Sized(m) && |m.ops| == n + 6 && m.handlers == []
    ensures forall i :: 0 <= i < n + 6 ==> m.ops[i] == OpOf(n, i) && m.lengths[i] == LengthOf(n, i) && m.reached[i]
    ensures forall i :: 0 <= i < n + 6 ==> m.chains[i] == (if i < 4 then [] else [4]) && m.onAddress[i] == (i == 4)
  {
    Code(seq(n + 6, (i: nat) => OpOf(n, i)), seq(n + 6, (i: nat) => LengthOf(n, i)), seq(n + 6, (i: nat) => true),
         seq(n + 6, (i: nat) => if i < 4 then [] else [4]), [], seq(n + 6, (i: nat) => i == 4))
  }

  lemma ExampleStructured(n: nat)
    ensures Structured(Example(n)) && AddressesStored(Example(n))
  {
    var m := Example(n);
    assert [] + [4] == [4];
    hide Example;
    assert OneRet(m);
    forall i | 0 <= i < n + 6
      ensures StructuredAt(m, i)
    {
    }
  }

  // ---------- its list ----------

  function CopyOf(n: nat, s: Subr, k: nat): CodeRef {
    CodeRef(4 + k, s, if k == 0 || k == n + 1 then Skipped else Normal)
  }

  /** What is made for one call. */
  function Copies(n: nat, s: Subr): (r: seq<CodeRef>)
    ensures |r| == n + 2 && forall k :: 0 <= k < n + 2 ==> r[k] == CopyOf(n, s, k)
  {
    seq(n + 2, (k: nat) => CopyOf(n, s, k))
  }

  lemma {:induction false} PlainBody(n: nat, s: Subr, k: nat, base: nat)
    requires Chain(s) == [4] && 1 <= k <= n + 1
    ensures Body(Example(n), s, 4 + k, base + k) == Copies(n, s)[k..]
    decreases n + 1 - k
  {
    var m := Example(n);
    hide Body, Chain, Example;
    if k == n + 1 {
      BodyEnd(m, s, n + 6, base + n + 2);
      BodyRet(m, s, 5 + n, base + n + 1);
    } else {
      PlainBody(n, s, k + 1, base);
      BodyPlain(m, s, 4 + k, base + k);
    }
  }

  lemma CallBody(n: nat, s: Subr, base: nat)
    requires Chain(s) == [4]
    ensures Body(Example(n), s, 0, base) == Copies(n, s)
  {
    var m := Example(n);
    PlainBody(n, s, 1, base);
    hide Body, Chain, Example;
    BodyStore(m, s, 4, base);
    BodySkipTo(m, s, 0, 4, base);
  }

  function FirstCall(): Subr {
    Sub(1, 4, Top)
  }

  function SecondCall(n: nat): Subr {
    Sub(n + 4, 4, Top)
  }

  function Place(n: nat, p: nat): CodeRef {
    if p == 0 then CodeRef(0, Top, Normal)
    else if p == 1 then CodeRef(1, Top, Skipped)
    else if p < n + 4 then CopyOf(n, FirstCall(), p - 2)
    else if p == n + 4 then CodeRef(2, Top, Skipped)
    else if p < 2 * n + 7 then CopyOf(n, SecondCall(n), p - n - 5)
    else CodeRef(3, Top, Normal)
  }

  function List(n: nat): (l: seq<CodeRef>)
    ensures |l| == 2 * n + 8 && forall p :: 0 <= p < 2 * n + 8 ==> l[p] == Place(n, p)
  {
    seq(2 * n + 8, (p: nat) => Place(n, p))
  }

  /** The list is what is made for the calls, and between that the instructions outside. */
  lemma ListJoins(n: nat, first: seq<CodeRef>, second: seq<CodeRef>)
    requires first == Copies(n, FirstCall()) && second == Copies(n, SecondCall(n))
    ensures [CodeRef(0, Top, Normal)] + ([CodeRef(1, Top, Skipped)] + first
            + ([CodeRef(2, Top, Skipped)] + second + [CodeRef(3, Top, Normal)])) == List(n)
  {
    var tail := [CodeRef(2, Top, Skipped)] + second + [CodeRef(3, Top, Normal)];
    var l := [CodeRef(0, Top, Normal)] + ([CodeRef(1, Top, Skipped)] + first + tail);
    hide List, Copies;
    forall p: nat | p < 2 * n + 8
      ensures l[p] == Place(n, p)
    {
      if 2 <= p < n + 4 {
        assert l[p] == first[p - 2];
      } else if n + 4 <= p {
        assert l[p] == tail[p - (n + 4)];
      }
    }
    assert l == List(n);
  }

  lemma ExampleList(n: nat)
    ensures Refs(Example(n)) == List(n)
  {
    var m := Example(n);
    assert Chain(FirstCall()) == [4] && Chain(SecondCall(n)) == [4] && Chain(Top) == [];
    CallBody(n, FirstCall(), 2);
    CallBody(n, SecondCall(n), n + 5);
    var first, second := Copies(n, FirstCall()), Copies(n, SecondCall(n));
    ListJoins(n, first, second);
    assert first[0].inumber == 4 && second[0].inumber == 4;
    hide Body, Chain, Example, Copies, List;
    EndBody(n);
    BodyCall(m, Top, 2, n + 4, 4);
    BodyCall(m, Top, 1, 1, 4);
    BodyPlain(m, Top, 0, 0);
  }

  lemma EndBody(n: nat)
    ensures Body(Example(n), Top, 3, 2 * n + 7) == [CodeRef(3, Top, Normal)]
  {
    var m := Example(n);
    assert Chain(Top) == [];
    hide Body, Chain, Example;
    BodySkipTo(m, Top, 4, n + 6, 2 * n + 8);
    BodyEnd(m, Top, n + 6, 2 * n + 8);
    BodyPlain(m, Top, 3, 2 * n + 7);
  }

  // ---------- its offsets ----------

  lemma {:induction false} PlainOffsets(n: nat, refs: seq<CodeRef>, p: nat, k: nat)
    requires Numbered(Example(n), refs) && p + k <= |refs|
    requires forall j :: p <= j < p + k ==> refs[j].flag == Normal && 5 <= refs[j].inumber < 5 + n
    ensures Offset(Example(n), refs, p + k) == Offset(Example(n), refs, p) + k
    decreases k
  {
    if k > 0 {
      PlainOffsets(n, refs, p, k - 1);
      hide Example;
      assert Offset(Example(n), refs, p + k) == Advance(Example(n), refs[p + k - 1],
             Offset(Example(n), refs, p + k - 1));
    }
  }

  lemma SkippedOffsets(m: Code, refs: seq<CodeRef>, p: nat)
    requires Numbered(m, refs) && p < |refs| && refs[p].flag == Skipped
    ensures Offset(m, refs, p + 1) == Offset(m, refs, p)
  {}

  /** From a dropped store over `n` copies and the ret that follows them, which is dropped too. */
  lemma CallOffsets(n: nat, refs: seq<CodeRef>, p: nat)
    requires Numbered(Example(n), refs) && p + n + 2 <= |refs| && CallPlaces(n, refs, p)
    ensures Offset(Example(n), refs, p + n + 2) == Offset(Example(n), refs, p) + n
  {
    var m := Example(n);
    hide Offset, Example;
    SkippedOffsets(m, refs, p);
    PlainOffsets(n, refs, p + 1, n);
    SkippedOffsets(m, refs, p + 1 + n);
  }

  lemma BranchOffset(m: Code, n: nat, refs: seq<CodeRef>, p: nat)
    requires m == Example(n) && Numbered(m, refs) && p < |refs| && refs[p].inumber == 0 && refs[p].flag == Normal
    ensures Offset(m, refs, p + 1) == Offset(m, refs, p) + 3
  {
    assert Offset(m, refs, p + 1) == Advance(m, refs[p], Offset(m, refs, p));
    hide Offset;
  }

  /** One byte each, between two dropped copies. */
  predicate CallPlaces(n: nat, refs: seq<CodeRef>, p: nat)
    requires p + n + 2 <= |refs|
  {
    && refs[p].flag == Skipped && refs[p + 1 + n].flag == Skipped
    && forall j :: p < j < p + 1 + n ==> refs[j].flag == Normal && 5 <= refs[j].inumber < 5 + n
  }

  lemma FirstPlaces(n: nat)
    ensures CallPlaces(n, List(n), 2)
  {}

  lemma SecondPlaces(n: nat)
    ensures CallPlaces(n, List(n), n + 5)
  {}

  lemma JsrPlaces(n: nat)
    ensures List(n)[0] == CodeRef(0, Top, Normal) && List(n)[1].flag == Skipped && List(n)[n + 4].flag == Skipped
  {}

  lemma TargetOffset(n: nat, refs: seq<CodeRef>)
    requires refs == List(n) && Numbered(Example(n), refs)
    ensures Offset(Example(n), refs, 2 * n + 7) == 3 + 2 * n
  {
    JsrPlaces(n);
    FirstPlaces(n);
    SecondPlaces(n);
    OffsetStart(Example(n), refs);
    hide List, Offset, Example, CallPlaces, Place, Numbered;
    var m := Example(n);
    BranchOffset(m, n, refs, 0);
    SkippedOffsets(m, refs, 1);
    CallOffsets(n, refs, 2);
    SkippedOffsets(m, refs, n + 4);
    CallOffsets(n, refs, n + 5);
  }

  // ---------- its two runs ----------

  /** What the rewriter makes of the example: its displacement of 9 has become 3 + 2 * n. */
  lemma ExampleBuilt(n: nat) returns (next: map<nat, nat>)
    ensures Built(Example(n), List(n), next) && AllResolvable(Example(n), List(n), next)
    ensures ShortJump(Example(n), List(n), next, 0) == Some(3 + 2 * n)
  {
    next := EndsOf(n);
    ExampleJump(n, List(n), next);
  }

  lemma EndsOf(n: nat) returns (next: map<nat, nat>)
    ensures Built(Example(n), List(n), next) && AllResolvable(Example(n), List(n), next)
  {
    var m, refs := Example(n), List(n);
    ExampleStructured(n);
    ExampleList(n);
    hide Structured, Body, List, Example, Refs;
    next := map q: nat | q < |refs| && refs[q].inumber < |m.ops| && Calls(m, refs[q].inumber) :: CallEnd(m, refs, q);
    assert Numbered(m, refs);
    BuiltResolvable(m, refs, next);
  }

  lemma ExampleJump(n: nat, refs: seq<CodeRef>, next: map<nat, nat>)
    requires refs == List(n) && AllResolvable(Example(n), refs, next)
    ensures ShortJump(Example(n), refs, next, 0) == Some(3 + 2 * n)
  {
    var m := Example(n);
    TargetOffset(n, refs);
    FallingOut.OnlyTarget(refs, Top, 3, 2 * n + 7);
    OffsetStart(m, refs);
    hide Offset, TargetPlace, Example, List;
    assert Resolvable(m, refs, next, 0);
  }

  lemma OffsetStart(m: Code, refs: seq<CodeRef>)
    requires Numbered(m, refs)
    ensures Offset(m, refs, 0) == 0
  {}

  /** Instruction 0 branches, and instruction 3 returns. */
  function Acts<D>(i: nat, data: D): Act<D> {
    if i == 0 then Take(0, data) else if i == 3 then Return(data) else Fall(data)
  }

  /** The branch used to go nine bytes. */
  lemma WasShort(n: nat)
    ensures OldOffset(Example(n), 3) == 9
  {
    var m := Example(n);
    assert OldOffset(m, 1) == 3 && OldOffset(m, 2) == 6;
  }

  lemma OldReturns<D>(n: nat, handle: Handle<D>, data: D)
    ensures OldRun(Example(n), (i, d) => Acts(i, d), handle, Running(0, [], [], data), 2) == Ended(Finished(data))
  {
    var m, act := Example(n), (i: nat, d: D) => Acts(i, d);
    hide Example;
    var c1 := OldStep(m, act, handle, Running(0, [], [], data));
    assert c1 == Running(3, [], [], data);
    assert OldStep(m, act, handle, c1) == Ended(Finished(data));
    assert OldRun(m, act, handle, c1, 1) == OldRun(m, act, handle, Ended(Finished(data)), 0);
  }

  /** With between 16383 and 32766 bytes in the subroutine, the new code branches to before its start. */
  lemma NewLost<D>(n: nat, next: map<nat, nat>, data: D)
    requires 16383 <= n <= 32766
    requires Built(Example(n), List(n), next) && AllResolvable(Example(n), List(n), next)
    requires ShortJump(Example(n), List(n), next, 0) == Some(3 + 2 * n)
    ensures NewRun(Example(n), (i, d) => Acts(i, d), Emitted(Example(n), List(n), next, |List(n)|), [],
            NewRunning(0, data), 2)
         == NewEnded(Stuck)
  {
    var m, refs, act := Example(n), List(n), (i: nat, d: D) => Acts(i, d);
    hide Refs, EndsKnown, Structured, List, ShortJump, Emitted, Fetch, Resolvable;
    assert Offset(m, refs, 0) == 0;
    assert forall i :: 0 <= i < |m.lengths| ==> m.lengths[i] > 0;
    hide Example, Offset;
    FetchEmitted(m, refs, next, 0, |refs|);
    assert Resolvable(m, refs, next, 0);
    assert Short(3 + 2 * n) == 3 + 2 * n - 65536 < 0;
    var code := Emitted(m, refs, next, |refs|);
    var c1 := NewStep(m, act, code, [], NewRunning(0, data));
    assert c1 == NewRunning(3 + 2 * n - 65536, data);
    assert NewStep(m, act, code, [], c1) == NewEnded(Stuck);
    assert NewRun(m, act, code, [], c1, 1) == NewRun(m, act, code, [], NewEnded(Stuck), 0);
  }
}
