/** The instruction list that inlining subroutines produces: which instruction is copied where,
    on behalf of which call. */
module Subroutines {
  datatype Op =
    | Plain | StoreReturn | If(target: nat) | Goto(target: nat) | Exit | Switch(targets: seq<nat>)
    | Jsr(target: nat, comesBack: bool) | Ret

  datatype Catch = Catch(start: nat, end: nat, handler: nat, kind: nat) {
    predicate Protects(i: nat) {
      start <= i < end
    }
  }

  /** A method and what the dataflow analysis found: which instructions are reached, and the entries
      of the subroutines that each one is in, outermost first, and whether a return address is among
      its operands on the stack. */
  datatype Code = Code(
    ops: seq<Op>, lengths: seq<nat>, reached: seq<bool>, chains: seq<seq<nat>>, handlers: seq<Catch>,
    onAddress: seq<bool>)

  predicate Sized(m: Code) {
    |m.ops| == |m.lengths| == |m.reached| == |m.chains| == |m.onAddress|
  }

  /** One call of a subroutine, by the place of its jsr in the new list. */
  datatype Subr = Top | Sub(caller: nat, target: nat, parent: Subr)

  datatype Flag = Normal | Skipped | JsrSimpleGoto | JsrTargetedGoto | RetSimpleGoto

  datatype CodeRef = CodeRef(inumber: nat, sub: Subr, flag: Flag)

  function Depth(s: Subr): nat {
    if s.Top? then 0 else Depth(s.parent) + 1
  }

  function Chain(s: Subr): (r: seq<nat>)
    ensures |r| == Depth(s)
  {
    if s.Top? then [] else Chain(s.parent) + [s.target]
  }

  function MaxDepth(chains: seq<seq<nat>>): (d: nat)
    ensures forall i :: 0 <= i < |chains| ==> |chains[i]| <= d
  {
    if chains == [] then 0
    else
      var d := MaxDepth(chains[1..]);
      if |chains[0]| > d then |chains[0]| else d
  }

  /** How many calls can still be nested. */
  function Room(m: Code, s: Subr): nat {
    if Depth(s) > MaxDepth(m.chains) then 0 else MaxDepth(m.chains) + 1 - Depth(s)
  }

  predicate Included(m: Code, s: Subr, i: nat)
    requires Sized(m) && i < |m.ops|
  {
    m.reached[i] && m.chains[i] == Chain(s)
  }

  // ---------- the list ----------

  function Calls(m: Code, i: nat): bool
    requires Sized(m) && i < |m.ops|
  {
    m.ops[i].Jsr? && m.ops[i].comesBack
  }

  /** The copies made for call `s` from instruction `i` on, the first of them at place `base`. */
  function Body(m: Code, s: Subr, i: nat, base: nat): seq<CodeRef>
    requires Sized(m) && i <= |m.ops|
    decreases Room(m, s), |m.ops| - i, 1
  {
    if i == |m.ops| then []
    else if !Included(m, s, i) then Body(m, s, i + 1, base)
    else
      var inner := Inner(m, s, i, base);
      var rest := Body(m, s, i + 1, base + 1 + |inner|);
      [CodeRef(i, s, FlagOf(m, i, inner, rest))] + inner + rest
  }

  /** The copies made for the call at instruction `i`, if it is one. */
  function Inner(m: Code, s: Subr, i: nat, base: nat): seq<CodeRef>
    requires Sized(m) && i < |m.ops| && Included(m, s, i)
    decreases Room(m, s), |m.ops| - i, 0
  {
    if Calls(m, i) then Body(m, Sub(base, m.ops[i].target, s), 0, base + 1) else []
  }

  function FlagOf(m: Code, i: nat, inner: seq<CodeRef>, rest: seq<CodeRef>): Flag
    requires Sized(m) && i < |m.ops|
  {
    match m.ops[i]
    case Jsr(target, comesBack) =>
      if !comesBack then JsrSimpleGoto
      else if inner != [] && inner[0].inumber != target then JsrTargetedGoto
      else Skipped
    case Ret => if rest == [] then Skipped else RetSimpleGoto
    case StoreReturn => Skipped
    case _ => Normal
  }

  function Refs(m: Code): seq<CodeRef>
    requires Sized(m)
  {
    Body(m, Top, 0, 0)
  }

  // ---------- segments of a list ----------

  /** `b` stands in `refs` at place `base`. */
  predicate PlacedAt(refs: seq<CodeRef>, base: nat, b: seq<CodeRef>) {
    base + |b| <= |refs| && refs[base..base + |b|] == b
  }

  /** The copies for `s` from instruction `i` on stand at place `base`. */
  predicate Segment(m: Code, refs: seq<CodeRef>, s: Subr, i: nat, base: nat)
    requires Sized(m) && i <= |m.ops|
  {
    PlacedAt(refs, base, Body(m, s, i, base))
  }

  /** Where the copies for a segment end. */
  function End(m: Code, s: Subr, i: nat, base: nat): nat
    requires Sized(m) && i <= |m.ops|
  {
    base + |Body(m, s, i, base)|
  }

  /** Where the copies made for the call at instruction `i` end. */
  function InnerEnd(m: Code, s: Subr, i: nat, base: nat): (r: nat)
    requires Sized(m) && i < |m.ops| && Included(m, s, i)
    ensures r == base + 1 + |Inner(m, s, i, base)| == if Calls(m, i)
            then End(m, Sub(base, m.ops[i].target, s), 0, base + 1) else base + 1
  {
    base + 1 + |Inner(m, s, i, base)|
  }

  lemma SegmentSkip(m: Code, refs: seq<CodeRef>, s: Subr, i: nat, base: nat)
    requires Sized(m) && i < |m.ops| && !Included(m, s, i) && Segment(m, refs, s, i, base)
    ensures Segment(m, refs, s, i + 1, base) && End(m, s, i, base) == End(m, s, i + 1, base)
  {}

  lemma EndLast(m: Code, s: Subr, base: nat)
    requires Sized(m)
    ensures End(m, s, |m.ops|, base) == base
  {}

  lemma PlacedParts(refs: seq<CodeRef>, base: nat, h: CodeRef, inner: seq<CodeRef>, rest: seq<CodeRef>)
    requires PlacedAt(refs, base, [h] + inner + rest)
    ensures base < |refs| && refs[base] == h
    ensures PlacedAt(refs, base + 1, inner) && PlacedAt(refs, base + 1 + |inner|, rest)
  {
    var b := [h] + inner + rest;
    forall k | 0 <= k < |b|
      ensures refs[base + k] == b[k]
    {
      assert refs[base + k] == refs[base..base + |b|][k];
    }
    assert refs[base + 0] == b[0] == h;
    forall k | 0 <= k < |inner|
      ensures refs[base + 1 + k] == inner[k]
    {
      assert refs[base + (1 + k)] == b[1 + k] == inner[k];
    }
    forall k | 0 <= k < |rest|
      ensures refs[base + 1 + |inner| + k] == rest[k]
    {
      assert refs[base + (1 + |inner| + k)] == b[1 + |inner| + k] == rest[k];
    }
    PlacedByElement(refs, base + 1, inner);
    PlacedByElement(refs, base + 1 + |inner|, rest);
  }

  lemma PlacedByElement(refs: seq<CodeRef>, base: nat, b: seq<CodeRef>)
    requires base + |b| <= |refs| && forall k :: 0 <= k < |b| ==> refs[base + k] == b[k]
    ensures PlacedAt(refs, base, b)
  {
    var part := refs[base..base + |b|];
    assert forall k :: 0 <= k < |b| ==> part[k] == refs[base + k];
    assert part == b;
  }

  lemma SegmentParts(m: Code, refs: seq<CodeRef>, s: Subr, i: nat, base: nat)
    requires Sized(m) && i < |m.ops| && Included(m, s, i) && Segment(m, refs, s, i, base)
    ensures var inner := Inner(m, s, i, base);
            var rest := Body(m, s, i + 1, base + 1 + |inner|);
            base < |refs| && refs[base] == CodeRef(i, s, FlagOf(m, i, inner, rest))
            && Body(m, s, i, base) == [refs[base]] + inner + rest
            && PlacedAt(refs, base + 1, inner) && Segment(m, refs, s, i + 1, base + 1 + |inner|)
            && (Calls(m, i) ==> Segment(m, refs, Sub(base, m.ops[i].target, s), 0, base + 1))
    ensures End(m, s, i, base) == End(m, s, i + 1, InnerEnd(m, s, i, base))
  {
    hide PlacedAt;
    var inner := Inner(m, s, i, base);
    PlacedParts(refs, base, CodeRef(i, s, FlagOf(m, i, inner, Body(m, s, i + 1, base + 1 + |inner|))), inner,
               Body(m, s, i + 1, base + 1 + |inner|));
  }

  // ---------- what a segment says about each of its places ----------

  /** From every copy on, the list goes on with the rest of the call it was made for. */
  ghost predicate Stands(m: Code, refs: seq<CodeRef>, p: nat)
    requires Sized(m) && p < |refs|
  {
    && refs[p].inumber < |m.ops| && Included(m, refs[p].sub, refs[p].inumber)
    && Segment(m, refs, refs[p].sub, refs[p].inumber, p)
  }

  lemma {:induction false} SegmentStands(m: Code, refs: seq<CodeRef>, s: Subr, i: nat, base: nat, p: nat)
    requires Sized(m) && i <= |m.ops| && Segment(m, refs, s, i, base) && base <= p < End(m, s, i, base)
    ensures p < |refs| && Stands(m, refs, p)
    decreases Room(m, s), |m.ops| - i
  {
    if i == |m.ops| {
      assert false;
    } else if !Included(m, s, i) {
      SegmentStands(m, refs, s, i + 1, base, p);
    } else {
      SegmentParts(m, refs, s, i, base);
      var inner := Inner(m, s, i, base);
      hide Included, PlacedAt;
      if p == base {
      } else if p < base + 1 + |inner| {
        SegmentStands(m, refs, Sub(base, m.ops[i].target, s), 0, base + 1, p);
      } else {
        SegmentStands(m, refs, s, i + 1, base + 1 + |inner|, p);
      }
    }
  }

  /** A copy was made for this call or for one nested in it, whose jsr stands before it. */
  ghost predicate CalledFrom(m: Code, refs: seq<CodeRef>, p: nat)
    requires Sized(m) && p < |refs| && refs[p].sub.Sub? && refs[p].inumber < |m.ops|
  {
    var s := refs[p].sub;
    && s.caller < p && refs[s.caller].sub == s.parent && refs[s.caller].inumber < |m.ops|
    && Calls(m, refs[s.caller].inumber) && m.ops[refs[s.caller].inumber].target == s.target
    && p < End(m, s, 0, s.caller + 1)
    && End(m, s, refs[p].inumber, p) == End(m, s, 0, s.caller + 1)
  }

  lemma {:induction false} SegmentCalled(m: Code, refs: seq<CodeRef>, s: Subr, i: nat, base: nat, p: nat)
    requires Sized(m) && i <= |m.ops| && Segment(m, refs, s, i, base) && base <= p < End(m, s, i, base)
    ensures p < |refs| && Stands(m, refs, p)
    ensures (refs[p].sub == s && End(m, s, refs[p].inumber, p) == End(m, s, i, base))
         || (refs[p].sub.Sub? && CalledFrom(m, refs, p))
    decreases Room(m, s), |m.ops| - i
  {
    hide Body, Inner, End, PlacedAt, Segment;
    EndLast(m, s, base);
    SegmentStands(m, refs, s, i, base, p);
    if !Included(m, s, i) {
      SegmentSkip(m, refs, s, i, base);
      SegmentCalled(m, refs, s, i + 1, base, p);
    } else {
      SegmentParts(m, refs, s, i, base);
      if p == base {
      } else if p < InnerEnd(m, s, i, base) {
        SegmentCalled(m, refs, Sub(base, m.ops[i].target, s), 0, base + 1, p);
      } else {
        SegmentCalled(m, refs, s, i + 1, InnerEnd(m, s, i, base), p);
      }
    }
  }

  /** Every instruction of a call has a copy. */
  lemma {:induction false} SegmentComplete(m: Code, refs: seq<CodeRef>, s: Subr, i: nat, base: nat, j: nat)
      returns (q: nat)
    requires Sized(m) && i <= j < |m.ops| && Segment(m, refs, s, i, base) && Included(m, s, j)
    ensures base <= q < |refs| && refs[q].inumber == j && refs[q].sub == s
    decreases |m.ops| - i
  {
    if !Included(m, s, i) {
      q := SegmentComplete(m, refs, s, i + 1, base, j);
    } else {
      SegmentParts(m, refs, s, i, base);
      if i == j {
        q := base;
      } else {
        q := SegmentComplete(m, refs, s, i + 1, base + 1 + |Inner(m, s, i, base)|, j);
      }
    }
  }

  /** The number of copies does not depend on where they are made. */
  lemma {:induction false} SameLength(m: Code, s: Subr, t: Subr, i: nat, base: nat, other: nat)
    requires Sized(m) && i <= |m.ops| && Chain(s) == Chain(t)
    ensures |Body(m, s, i, base)| == |Body(m, t, i, other)|
    decreases Room(m, s), |m.ops| - i
  {
    if i < |m.ops| {
      if !Included(m, s, i) {
        SameLength(m, s, t, i + 1, base, other);
      } else {
        if Calls(m, i) {
          SameLength(m, Sub(base, m.ops[i].target, s), Sub(other, m.ops[i].target, t), 0, base + 1, other + 1);
        }
        SameLength(m, s, t, i + 1, base + 1 + |Inner(m, s, i, base)|, other + 1 + |Inner(m, t, i, other)|);
      }
    }
  }

  // ---------- unfolding the list, one instruction at a time ----------

  lemma BodyEnd(m: Code, s: Subr, i: nat, base: nat)
    requires Sized(m) && i == |m.ops|
    ensures Body(m, s, i, base) == []
  {}

  lemma BodySkip(m: Code, s: Subr, i: nat, base: nat)
    requires Sized(m) && i < |m.ops| && !Included(m, s, i)
    ensures Body(m, s, i, base) == Body(m, s, i + 1, base)
  {}

  lemma {:induction false} BodySkipTo(m: Code, s: Subr, i: nat, j: nat, base: nat)
    requires Sized(m) && i <= j <= |m.ops| && forall k :: i <= k < j ==> !Included(m, s, k)
    ensures Body(m, s, i, base) == Body(m, s, j, base)
    decreases j - i
  {
    if i < j {
      BodySkipTo(m, s, i + 1, j, base);
    }
  }

  lemma BodyPlain(m: Code, s: Subr, i: nat, base: nat)
    requires Sized(m) && i < |m.ops| && Included(m, s, i) && !m.ops[i].Jsr? && !m.ops[i].Ret? && !m.ops[i].StoreReturn?
    ensures Body(m, s, i, base) == [CodeRef(i, s, Normal)] + Body(m, s, i + 1, base + 1)
  {}

  lemma BodyStore(m: Code, s: Subr, i: nat, base: nat)
    requires Sized(m) && i < |m.ops| && Included(m, s, i) && m.ops[i].StoreReturn?
    ensures Body(m, s, i, base) == [CodeRef(i, s, Skipped)] + Body(m, s, i + 1, base + 1)
  {}

  lemma BodyRet(m: Code, s: Subr, i: nat, base: nat)
    requires Sized(m) && i < |m.ops| && Included(m, s, i) && m.ops[i].Ret? && Body(m, s, i + 1, base + 1) == []
    ensures Body(m, s, i, base) == [CodeRef(i, s, Skipped)]
  {}

  lemma BodyCall(m: Code, s: Subr, i: nat, base: nat, t: nat)
    requires Sized(m) && i < |m.ops| && Included(m, s, i) && m.ops[i] == Jsr(t, true)
    ensures var inner := Body(m, Sub(base, t, s), 0, base + 1);
            inner != [] && inner[0].inumber == t ==>
            Body(m, s, i, base) == [CodeRef(i, s, Skipped)] + inner + Body(m, s, i + 1, base + 1 + |inner|)
  {}

  /** A jsr whose subroutine has nothing for its call. */
  lemma BodyCallEmpty(m: Code, s: Subr, i: nat, base: nat, t: nat)
    requires Sized(m) && i < |m.ops| && Included(m, s, i) && m.ops[i] == Jsr(t, true)
    requires Body(m, Sub(base, t, s), 0, base + 1) == []
    ensures Body(m, s, i, base) == [CodeRef(i, s, Skipped)] + Body(m, s, i + 1, base + 1)
  {}
}
