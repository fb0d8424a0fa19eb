/** The code generated from the inlined list: offsets, displacements and the exception table. */
module NewCode {
  import opened Wrappers
  import opened Subroutines
  import opened InlinedList
  import opened InlineJsr

  // ---------- methods that inlining preserves ----------

  predicate InPlace(m: Code, i: nat, t: nat)
    requires Sized(m) && i < |m.ops|
  {
    t < |m.ops| && m.reached[t] && m.chains[t] == m.chains[i]
  }

  /** A target in the same subroutine, or in one that encloses it. */
  predicate Outward(m: Code, i: nat, t: nat)
    requires Sized(m) && i < |m.ops|
  {
    t < |m.ops| && m.reached[t] && m.chains[t] <= m.chains[i]
  }

  predicate StructuredAt(m: Code, i: nat)
    requires Sized(m) && i < |m.ops|
  {
    && (match m.ops[i]
        case Plain => InPlace(m, i, i + 1)
        case StoreReturn => InPlace(m, i, i + 1)
        case If(t) => InPlace(m, i, i + 1) && Outward(m, i, t)
        case Goto(t) => Outward(m, i, t)
        case Switch(ts) => forall k :: 0 <= k < |ts| ==> Outward(m, i, ts[k])
        case Exit => true
        case Jsr(t, comesBack) =>
          if comesBack then t < |m.ops| && m.reached[t] && m.chains[t] == m.chains[i] + [t] && InPlace(m, i, i + 1)
          else Outward(m, i, t)
        case Ret => m.chains[i] != [])
    && forall k :: 0 <= k < |m.handlers| && m.handlers[k].Protects(i) ==> Outward(m, i, m.handlers[k].handler)
  }

  /** Falling through stays in a subroutine, branches and handlers only leave subroutines, a jsr's
      target is in the subroutine that it calls and its return point in its own, no subroutine has
      two ret instructions, and no handler's range ends where the code does. */
  predicate Structured(m: Code) {
    && Sized(m) && OneRet(m) && 0 < |m.ops| && m.reached[0] && m.chains[0] == []
    && (forall i :: 0 <= i < |m.ops| && m.reached[i] ==> StructuredAt(m, i))
    && (forall i :: 0 <= i < |m.ops| ==> m.lengths[i] > 0)
    && forall k :: 0 <= k < |m.handlers| ==>
         m.handlers[k].start < |m.ops| && m.handlers[k].end < |m.ops| && m.handlers[k].handler < |m.ops|
  }

  /** Return addresses are only ever stored: no other instruction that is reached has one among its
      operands. */
  predicate AddressesStored(m: Code)
    requires Sized(m)
  {
    forall i :: 0 <= i < |m.ops| && m.reached[i] && m.onAddress[i] ==> m.ops[i].StoreReturn?
  }

  // ---------- offsets ----------

  function Aligned(pc: nat): nat {
    (pc + 3) / 4 * 4
  }

  /** The offset after an instruction. The operands of a switch are aligned, and a ret becomes a goto. */
  function Advance(m: Code, r: CodeRef, pc: nat): (next: nat)
    requires Sized(m) && r.inumber < |m.ops|
    ensures pc <= next
  {
    if r.flag == Skipped then pc
    else if m.ops[r.inumber].Switch? then Aligned(pc + 1) + (if m.lengths[r.inumber] > 0
      then (m.lengths[r.inumber] - 1) / 4 * 4 else 0)
    else if m.ops[r.inumber].Ret? then pc + 3
    else pc + m.lengths[r.inumber]
  }

  predicate Numbered(m: Code, refs: seq<CodeRef>) {
    Sized(m) && forall p :: 0 <= p < |refs| ==> refs[p].inumber < |m.ops|
  }

  function Offset(m: Code, refs: seq<CodeRef>, p: nat): nat
    requires Numbered(m, refs) && p <= |refs|
  {
    if p == 0 then 0 else Advance(m, refs[p - 1], Offset(m, refs, p - 1))
  }

  lemma {:induction false} OffsetMonotone(m: Code, refs: seq<CodeRef>, p: nat, q: nat)
    requires Numbered(m, refs) && p <= q <= |refs|
    ensures Offset(m, refs, p) <= Offset(m, refs, q)
    decreases q
  {
    if p < q {
      OffsetMonotone(m, refs, p, q - 1);
    }
  }

  lemma OffsetStrict(m: Code, refs: seq<CodeRef>, p: nat, q: nat)
    requires Numbered(m, refs) && p < q <= |refs| && refs[p].flag != Skipped && m.lengths[refs[p].inumber] > 0
    ensures Offset(m, refs, p) < Offset(m, refs, q)
  {
    OffsetMonotone(m, refs, p + 1, q);
    AdvanceStrict(m, refs[p], Offset(m, refs, p));
  }

  lemma AdvanceStrict(m: Code, r: CodeRef, pc: nat)
    requires Sized(m) && r.inumber < |m.ops| && r.flag != Skipped && m.lengths[r.inumber] > 0
    ensures pc < Advance(m, r, pc)
  {}

  function SwitchLength(pad: nat, words: nat): nat {
    1 + pad + 4 * words
  }

  /** A switch at `pc` takes its opcode, as many bytes as bring its operands to a multiple of four, and its
      operands, which were padded in their own way before. */
  ghost predicate SwitchSize(oldLength: nat, pc: nat, size: nat) {
    exists pad: nat, oldPad: nat, words: nat ::
      && pad < 4 && oldPad < 4 && (pc + 1 + pad) % 4 == 0
      && oldLength == SwitchLength(oldPad, words) && size == SwitchLength(pad, words)
  }

  /** How many bytes a copy at `pc` takes: none if it is dropped, three for a ret, which becomes a goto, and
      otherwise what the instruction took, apart from the padding of a switch. */
  ghost predicate Takes(m: Code, r: CodeRef, pc: nat, size: nat)
    requires Sized(m) && r.inumber < |m.ops|
  {
    if r.flag == Skipped then size == 0
    else
      match m.ops[r.inumber]
      case Ret => size == 3
      case Switch(_) => m.lengths[r.inumber] > 0 ==> SwitchSize(m.lengths[r.inumber], pc, size)
      case _ => size == m.lengths[r.inumber]
  }

  lemma PaddedSwitch(oldLength: nat, pc: nat, size: nat)
    requires oldLength > 0 && pc + size == Aligned(pc + 1) + (oldLength - 1) / 4 * 4
    ensures SwitchSize(oldLength, pc, size)
  {
    var pad, oldPad, words := Aligned(pc + 1) - (pc + 1), (oldLength - 1) % 4, (oldLength - 1) / 4;
    assert oldLength == SwitchLength(oldPad, words) && size == SwitchLength(pad, words);
  }

  lemma OffsetTakes(m: Code, refs: seq<CodeRef>, p: nat)
    requires Numbered(m, refs) && p < |refs|
    ensures Offset(m, refs, p) <= Offset(m, refs, p + 1)
    ensures Takes(m, refs[p], Offset(m, refs, p), Offset(m, refs, p + 1) - Offset(m, refs, p))
  {
    hide SwitchSize;
    var i := refs[p].inumber;
    if m.ops[i].Switch? && m.lengths[i] > 0 && refs[p].flag != Skipped {
      PaddedSwitch(m.lengths[i], Offset(m, refs, p), Offset(m, refs, p + 1) - Offset(m, refs, p));
    }
  }

  /** Copies at these offsets follow one another without gaps or overlaps. */
  ghost predicate LaidOut(m: Code, refs: seq<CodeRef>, offsets: seq<nat>, length: nat)
    requires Numbered(m, refs) && |offsets| == |refs|
  {
    && (if refs == [] then length else offsets[0]) == 0
    && forall p: nat :: p < |refs| ==> Follows(m, refs, offsets, length, p)
  }

  /** The copy at place `p` takes the bytes up to the next one, or up to the end. */
  ghost predicate Follows(m: Code, refs: seq<CodeRef>, offsets: seq<nat>, length: nat, p: nat)
    requires Numbered(m, refs) && p < |refs| == |offsets|
  {
    var end := if p + 1 < |refs| then offsets[p + 1] else length;
    offsets[p] <= end && Takes(m, refs[p], offsets[p], end - offsets[p])
  }

  lemma OffsetsLaidOut(m: Code, refs: seq<CodeRef>, offsets: seq<nat>, length: nat)
    requires Numbered(m, refs) && |offsets| == |refs|
    requires forall p :: 0 <= p < |refs| ==> offsets[p] == Offset(m, refs, p)
    requires length == Offset(m, refs, |refs|)
    ensures LaidOut(m, refs, offsets, length)
  {
    assert Offset(m, refs, 0) == 0;
    hide Follows, Offset;
    forall p: nat | p < |refs|
      ensures Follows(m, refs, offsets, length, p)
    {
      var end := if p + 1 < |refs| then offsets[p + 1] else length;
      FollowsAt(m, refs, offsets, length, p, end);
    }
  }

  lemma FollowsAt(m: Code, refs: seq<CodeRef>, offsets: seq<nat>, length: nat, p: nat, end: nat)
    requires Numbered(m, refs) && p < |refs| == |offsets|
    requires offsets[p] == Offset(m, refs, p) && end == Offset(m, refs, p + 1)
    requires end == if p + 1 < |refs| then offsets[p + 1] else length
    ensures Follows(m, refs, offsets, length, p)
  {
    hide Takes, Offset;
    OffsetTakes(m, refs, p);
  }

  method AssignOffsets(ctx: JsrContext) returns (offsets: array<nat>, length: nat)
    requires ctx.Valid()
    ensures offsets.Length == |ctx.refs| && fresh(offsets) && Numbered(ctx.m, ctx.refs)
    ensures forall p :: 0 <= p < |ctx.refs| ==> offsets[p] == Offset(ctx.m, ctx.refs, p)
    ensures length == Offset(ctx.m, ctx.refs, |ctx.refs|)
    ensures LaidOut(ctx.m, ctx.refs, offsets[..], length)
  {
    hide Places, OneRet, Advance, LaidOut;
    offsets := new nat[|ctx.refs|];
    var pc, p := 0, 0;
    assert Numbered(ctx.m, ctx.refs);
    while p < |ctx.refs|
      invariant p <= |ctx.refs| && pc == Offset(ctx.m, ctx.refs, p)
      invariant forall q :: 0 <= q < p ==> offsets[q] == Offset(ctx.m, ctx.refs, q)
    {
      offsets[p] := pc;
      pc := Advance(ctx.m, ctx.refs[p], pc);
      p := p + 1;
    }
    length := pc;
    OffsetsLaidOut(ctx.m, ctx.refs, offsets[..], length);
  }

  // ---------- branch targets ----------

  method SubroutineGoto(from: Subr, to: Subr) returns (ok: bool)
    ensures ok <==> Encloses(to, from)
  {
    if to.Top? || to == from {
      TopEncloses(from);
      return true;
    } else if from.Top? || Depth(to) >= Depth(from) {
      if Encloses(to, from) {
        EnclosesDepth(to, from);
      }
      return false;
    }
    var s := from.parent;
    while Depth(s) > Depth(to)
      invariant Encloses(to, from) <==> Encloses(to, s)
      invariant Depth(s) >= Depth(to)
      decreases Depth(s)
    {
      s := s.parent;
    }
    if Encloses(to, s) {
      EnclosesDepth(to, s);
    }
    return s == to;
  }

  lemma TopEncloses(s: Subr)
    ensures Encloses(Top, s)
  {}

  /** The first of these places whose copy is eligible. */
  function Find(refs: seq<CodeRef>, s: Subr, places: seq<nat>): (r: Option<nat>)
    requires forall k :: 0 <= k < |places| ==> places[k] < |refs|
    ensures r.Some? ==> r.value in places && Encloses(refs[r.value].sub, s)
    ensures r.None? ==> forall k :: 0 <= k < |places| ==> !Encloses(refs[places[k]].sub, s)
  {
    if places == [] then None
    else if Encloses(refs[places[0]].sub, s) then Some(places[0])
    else Find(refs, s, places[1..])
  }

  /** Where a branch in call `s` to instruction `t` goes. */
  function TargetPlace(refs: seq<CodeRef>, s: Subr, t: nat): Option<nat> {
    Find(refs, s, Places(refs, t))
  }

  lemma TargetIsEligible(m: Code, refs: seq<CodeRef>, s: Subr, t: nat) returns (q: nat)
    requires Sized(m) && refs == Refs(m) && Live(m, refs, s) && t < |m.ops|
    requires m.reached[t] && m.chains[t] <= Chain(s)
    ensures TargetPlace(refs, s, t) == Some(q) && Eligible(refs, s, t, q) && refs[q].sub == Ancestor(s, |m.chains[t]|)
    ensures forall r :: Eligible(refs, s, t, r) ==> r == q
  {
    hide Refs, Encloses, Find;
    q := OneEligible(m, refs, s, t);
    assert q in Places(refs, t);
    var found := TargetPlace(refs, s, t);
    if found.Some? {
      assert Eligible(refs, s, t, found.value);
    }
  }

  /** The search for a branch's target comes to nothing exactly when the target is not reached, or is in
      a subroutine that the branch is not in. */
  lemma TargetFoundIff(m: Code, refs: seq<CodeRef>, p: nat, t: nat)
    requires Sized(m) && refs == Refs(m) && p < |refs| && t < |m.ops|
    ensures refs[p].inumber < |m.ops| && (TargetPlace(refs, refs[p].sub, t).Some? <==> Outward(m, refs[p].inumber, t))
  {
    hide Refs, Segment, Find, Places;
    var s := refs[p].sub;
    Standing(m, refs, p);
    if Outward(m, refs[p].inumber, t) {
      var q := TargetIsEligible(m, refs, s, t);
    }
    var found := TargetPlace(refs, s, t);
    if found.Some? {
      Standing(m, refs, found.value);
      EnclosesDepth(refs[found.value].sub, s);
    }
  }

  /** The number that two bytes written from `v` denote, as a branch displacement. */
  function Short(v: int): int {
    (v + 32768) % 65536 - 32768
  }

  method UpdateTarget(ctx: JsrContext, offsets: array<nat>, t: nat, s: Subr, pc: nat) returns (value: int)
    requires ctx.Valid() && t < |ctx.m.ops| && offsets.Length == |ctx.refs| && TargetPlace(ctx.refs, s, t).Some?
    ensures value == offsets[TargetPlace(ctx.refs, s, t).value] - pc
  {
    hide Encloses, Places, OneRet;
    var places, k := ctx.mapping[t], 0;
    while k < |places|
      invariant k <= |places| && Find(ctx.refs, s, places) == Find(ctx.refs, s, places[k..])
    {
      var ok := SubroutineGoto(s, ctx.refs[places[k]].sub);
      if ok {
        return offsets[places[k]] - pc;
      }
      assert places[k..][1..] == places[k + 1..];
      k := k + 1;
    }
    value := 0;
  }
}
