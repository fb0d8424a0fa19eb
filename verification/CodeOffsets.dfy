/** Offsets in the code and numbers of instructions: how the verifier tells one from the other. */
module CodeOffsets {
  import opened Subroutines

  /** An entry of an exception table, in offsets. */
  datatype CatchFrame = CatchFrame(start: nat, end: nat, handler: nat, kind: nat)

  /** The offset of an instruction; that of the code's end for the number after the last. */
  function OldOffset(m: Code, i: nat): nat
    requires Sized(m) && i <= |m.ops|
  {
    if i == 0 then 0 else OldOffset(m, i - 1) + m.lengths[i - 1]
  }

  lemma {:induction false} OldOffsetMonotone(m: Code, i: nat, j: nat)
    requires Sized(m) && i <= j <= |m.ops|
    ensures OldOffset(m, i) <= OldOffset(m, j)
    decreases j
  {
    if i < j {
      OldOffsetMonotone(m, i, j - 1);
    }
  }

  predicate Positive(m: Code) {
    forall i :: 0 <= i < |m.lengths| ==> m.lengths[i] > 0
  }

  lemma OldOffsetStrict(m: Code, i: nat, j: nat)
    requires Sized(m) && Positive(m) && i < j <= |m.ops|
    ensures OldOffset(m, i) < OldOffset(m, j)
  {
    OldOffsetMonotone(m, i + 1, j);
  }

  // ---------- from offsets to numbers ----------

  /** The bytes of an instruction: its number, and then no legal location. */
  function Marked(i: int, length: nat): (r: seq<int>)
    ensures |r| == length
  {
    if length == 0 then [] else [i] + seq(length - 1, _ => -1)
  }

  /** The number of the instruction at each offset, for the first `n` instructions. */
  function CodeData(m: Code, n: nat): (r: seq<int>)
    requires Sized(m) && n <= |m.ops|
    ensures |r| == OldOffset(m, n)
  {
    if n == 0 then [] else CodeData(m, n - 1) + Marked(n - 1, m.lengths[n - 1])
  }

  lemma {:induction false} NumberAt(m: Code, n: nat, i: nat)
    requires Sized(m) && Positive(m) && i < n <= |m.ops|
    ensures OldOffset(m, i) < |CodeData(m, n)| && CodeData(m, n)[OldOffset(m, i)] == i
    decreases n
  {
    hide OldOffset, CodeData, Positive;
    OldOffsetStrict(m, i, n);
    if i < n - 1 {
      OldOffsetStrict(m, i, n - 1);
      NumberAt(m, n - 1, i);
      EarlierNumber(m, n, OldOffset(m, i));
    } else {
      LastNumber(m, n) by { assert m.lengths[n - 1] > 0 by { PositiveAt(m, n - 1); } }
    }
  }

  lemma PositiveAt(m: Code, i: nat)
    requires Positive(m) && i < |m.lengths|
    ensures m.lengths[i] > 0
  {}

  lemma EarlierNumber(m: Code, n: nat, pc: nat)
    requires Sized(m) && 0 < n <= |m.ops| && pc < |CodeData(m, n - 1)|
    ensures pc < |CodeData(m, n)| && CodeData(m, n)[pc] == CodeData(m, n - 1)[pc]
  {
    hide Marked, OldOffset;
  }

  lemma LastNumber(m: Code, n: nat)
    requires Sized(m) && 0 < n <= |m.ops| && m.lengths[n - 1] > 0
    ensures OldOffset(m, n - 1) < |CodeData(m, n)| && CodeData(m, n)[OldOffset(m, n - 1)] == n - 1
  {
    MarkedFirst(n - 1, m.lengths[n - 1]);
    hide Marked, OldOffset;
  }

  lemma MarkedFirst(i: int, length: nat)
    requires length > 0
    ensures Marked(i, length)[0] == i
  {}

  /** Enters the number of an instruction at its first byte, and marks the others. */
  method NumberOne(codeData: array<int>, offset: nat, i: nat, length: nat)
    requires length > 0 && offset + length <= codeData.Length
    modifies codeData
    ensures codeData[..offset + length] == old(codeData[..offset]) + Marked(i, length)
  {
    var next := offset + 1;
    codeData[offset] := i;
    while next < offset + length
      invariant offset < next <= offset + length && codeData[..offset] == old(codeData[..offset])
      invariant codeData[offset] == i && forall k :: offset < k < next ==> codeData[k] == -1
    {
      codeData[next] := -1;
      next := next + 1;
    }
    hide Marked;
    IsMarked(codeData[offset..next], i);
    assert codeData[..next] == codeData[..offset] + codeData[offset..next];
  }

  lemma IsMarked(s: seq<int>, i: int)
    requires s != [] && s[0] == i && forall k :: 1 <= k < |s| ==> s[k] == -1
    ensures s == Marked(i, |s|)
  {}

  method NumberInstructions(m: Code, codeLength: nat) returns (codeData: array<int>, count: nat)
    requires Sized(m) && Positive(m) && codeLength == OldOffset(m, |m.ops|)
    ensures fresh(codeData) && codeData[..] == CodeData(m, |m.ops|) && count == |m.ops|
  {
    hide Marked;
    codeData := new int[codeLength];
    var offset, i := 0, 0;
    while offset < codeLength
      invariant i <= |m.ops| && offset == OldOffset(m, i) <= codeLength
      invariant codeData[..offset] == CodeData(m, i)
      decreases |m.ops| - i
    {
      if i == |m.ops| {
        assert false;
      }
      OldOffsetMonotone(m, i + 1, |m.ops|);
      NumberOne(codeData, offset, i, m.lengths[i]);
      offset := offset + m.lengths[i];
      i := i + 1;
    }
    count := i;
    if i < |m.ops| {
      OldOffsetStrict(m, i, |m.ops|);
      assert false;
    }
    assert codeData[..codeLength] == codeData[..];
  }

  /** The offset at which a range ends is one of the code's if and only if the range ends before the
      code does. Only then may the instruction at that offset be asked for. */
  lemma EndInsideIff(m: Code, i: nat)
    requires Sized(m) && Positive(m) && i <= |m.ops|
    ensures OldOffset(m, i) < |CodeData(m, |m.ops|)| <==> i < |m.ops|
  {
    if i < |m.ops| {
      OldOffsetStrict(m, i, |m.ops|);
    }
  }

  // ---------- exception tables ----------

  /** The entry in offsets and the one in instruction numbers are the same. */
  predicate SameFrame(m: Code, f: CatchFrame, c: Catch)
    requires Sized(m)
  {
    && c.start < |m.ops| && c.end <= |m.ops| && c.handler < |m.ops| && c.kind == f.kind
    && f.start == OldOffset(m, c.start) && f.end == OldOffset(m, c.end) && f.handler == OldOffset(m, c.handler)
  }

  predicate SameFrames(m: Code, frames: seq<CatchFrame>, handlers: seq<Catch>)
    requires Sized(m)
  {
    |frames| == |handlers| && forall k :: 0 <= k < |frames| ==> SameFrame(m, frames[k], handlers[k])
  }

  /** All offsets are those of instructions; a range may also end where the code does. */
  ghost predicate LegalFrame(m: Code, f: CatchFrame)
    requires Sized(m)
  {
    exists c :: SameFrame(m, f, c)
  }

  /** The verifier's table, which allows ranges to end where the code does. */
  method InitializeExceptionTable(m: Code, frames: seq<CatchFrame>, codeData: array<int>, codeLength: nat, count: nat)
      returns (handlers: seq<Catch>)
    requires Sized(m) && Positive(m) && codeData[..] == CodeData(m, |m.ops|)
    requires count == |m.ops| && codeLength == OldOffset(m, |m.ops|)
    requires forall k :: 0 <= k < |frames| ==> LegalFrame(m, frames[k])
    ensures SameFrames(m, frames, handlers)
  {
    hide OldOffset, CodeData;
    handlers := [];
    var i := 0;
    while i < |frames|
      invariant i <= |frames| && SameFrames(m, frames[..i], handlers)
    {
      assert LegalFrame(m, frames[i]);
      ghost var c :| SameFrame(m, frames[i], c);
      NumberAt(m, |m.ops|, c.start);
      NumberAt(m, |m.ops|, c.handler);
      EndInsideIff(m, c.end);
      if c.end < |m.ops| {
        NumberAt(m, |m.ops|, c.end);
      }
      ghost var numbers := codeData[..];
      assert codeData[frames[i].start] == numbers[frames[i].start]
             && codeData[frames[i].handler] == numbers[frames[i].handler];
      var end := count;
      if frames[i].end != codeLength {
        assert codeData[frames[i].end] == numbers[frames[i].end];
        end := codeData[frames[i].end];
      }
      handlers := handlers + [Catch(codeData[frames[i].start], end, codeData[frames[i].handler], frames[i].kind)];
      i := i + 1;
    }
    assert frames[..i] == frames;
  }

  /** A handler for all of a method: its range ends at an offset that is none of the code's. */
  lemma WholeRange(m: Code, f: CatchFrame)
    requires |m.ops| == 3 && Sized(m) && m.lengths == [1, 1, 1] && f == CatchFrame(0, 3, 2, 0)
    ensures LegalFrame(m, f) && f.end == |CodeData(m, 3)| == 3
  {
    assert OldOffset(m, 0) == 0;
    assert OldOffset(m, 1) == 1;
    assert OldOffset(m, 2) == 2;
    assert OldOffset(m, 3) == 3;
    assert SameFrame(m, f, Catch(0, 3, 2, 0));
  }
}
