/** The places of the inlined list: each copy is unique, branch targets have exactly one eligible
    copy, and what follows a copy is what should run next. */
module InlinedList {
  import opened Subroutines

  /** The call itself, or one that it is nested in. */
  predicate Encloses(to: Subr, from: Subr) {
    to == from || (from.Sub? && Encloses(to, from.parent))
  }

  /** The enclosing call at depth `d`. */
  function Ancestor(s: Subr, d: nat): (r: Subr)
    requires d <= Depth(s)
    ensures Depth(r) == d && Chain(r) == Chain(s)[..d] && Encloses(r, s)
  {
    if d == Depth(s) then s else Ancestor(s.parent, d)
  }

  lemma {:induction false} EnclosesDepth(to: Subr, from: Subr)
    requires Encloses(to, from)
    ensures Depth(to) <= Depth(from) && to == Ancestor(from, Depth(to))
  {
    if to != from {
      EnclosesDepth(to, from.parent);
    }
  }

  // ---------- contexts that have a segment ----------

  /** A call for which a whole segment has been generated. */
  ghost predicate Live(m: Code, refs: seq<CodeRef>, s: Subr)
    requires Sized(m)
  {
    s.Sub? ==>
      s.caller < |refs| && refs[s.caller].sub == s.parent && refs[s.caller].inumber < |m.ops|
      && Calls(m, refs[s.caller].inumber) && m.ops[refs[s.caller].inumber].target == s.target
  }

  function Base(s: Subr): nat {
    if s.Top? then 0 else s.caller + 1
  }

  lemma Standing(m: Code, refs: seq<CodeRef>, p: nat)
    requires Sized(m) && refs == Refs(m) && p < |refs|
    ensures Stands(m, refs, p) && Live(m, refs, refs[p].sub)
    ensures End(m, refs[p].sub, refs[p].inumber, p) == End(m, refs[p].sub, 0, Base(refs[p].sub))
  {
    hide Body;
    SegmentCalled(m, refs, Top, 0, 0, p) by { assert refs[0..0 + |refs|] == refs; }
  }

  lemma LiveSegment(m: Code, refs: seq<CodeRef>, s: Subr)
    requires Sized(m) && refs == Refs(m) && Live(m, refs, s)
    ensures Segment(m, refs, s, 0, Base(s))
    ensures s.Sub? ==> Live(m, refs, s.parent)
  {
    hide Body;
    if s.Top? {
      assert refs[0..0 + |refs|] == refs;
    } else {
      hide PlacedAt, Refs;
      Standing(m, refs, s.caller);
      SegmentParts(m, refs, s.parent, refs[s.caller].inumber, s.caller);
    }
  }

  lemma {:induction false} AncestorLive(m: Code, refs: seq<CodeRef>, s: Subr, d: nat)
    requires Sized(m) && refs == Refs(m) && Live(m, refs, s) && d <= Depth(s)
    ensures Live(m, refs, Ancestor(s, d))
  {
    if d < Depth(s) {
      LiveSegment(m, refs, s);
      AncestorLive(m, refs, s.parent, d);
    }
  }

  // ---------- unique copies ----------

  lemma CopiesUnique(m: Code, refs: seq<CodeRef>, p: nat, q: nat)
    requires Sized(m) && refs == Refs(m) && p < |refs| && q < |refs|
    requires refs[p].inumber == refs[q].inumber && refs[p].sub == refs[q].sub
    ensures p == q
  {
    hide Body, Refs, Included, Segment, Live;
    Standing(m, refs, p);
    Standing(m, refs, q);
    SameLength(m, refs[p].sub, refs[q].sub, refs[p].inumber, p, q);
  }

  lemma CopyExists(m: Code, refs: seq<CodeRef>, s: Subr, j: nat) returns (q: nat)
    requires Sized(m) && refs == Refs(m) && Live(m, refs, s) && j < |m.ops| && Included(m, s, j)
    ensures q < |refs| && refs[q].inumber == j && refs[q].sub == s
  {
    hide Body, Refs, Included, Segment;
    LiveSegment(m, refs, s);
    q := SegmentComplete(m, refs, s, 0, Base(s), j);
  }

  /** A copy of `t` that a branch in call `from` may go to. */
  predicate Eligible(refs: seq<CodeRef>, from: Subr, t: nat, q: nat) {
    q < |refs| && refs[q].inumber == t && Encloses(refs[q].sub, from)
  }

  /** The chain of a branch target is a prefix of the branch's, so that exactly one copy of the
      target is eligible. */
  lemma OneEligible(m: Code, refs: seq<CodeRef>, s: Subr, t: nat) returns (q: nat)
    requires Sized(m) && refs == Refs(m) && Live(m, refs, s) && t < |m.ops|
    requires m.reached[t] && m.chains[t] <= Chain(s)
    ensures Eligible(refs, s, t, q) && refs[q].sub == Ancestor(s, |m.chains[t]|)
    ensures forall r :: Eligible(refs, s, t, r) ==> r == q
  {
    hide Body, Refs, Encloses;
    var d := |m.chains[t]|;
    AncestorLive(m, refs, s, d);
    q := CopyExists(m, refs, Ancestor(s, d), t);
    forall r | Eligible(refs, s, t, r)
      ensures r == q
    {
      EligibleSub(m, refs, s, t, r);
      CopiesUnique(m, refs, r, q);
    }
  }

  lemma EligibleSub(m: Code, refs: seq<CodeRef>, s: Subr, t: nat, r: nat)
    requires Sized(m) && refs == Refs(m) && t < |m.ops| && Eligible(refs, s, t, r)
    ensures |m.chains[t]| <= Depth(s) && refs[r].sub == Ancestor(s, |m.chains[t]|)
  {
    hide Body, Refs, Encloses, Segment, Live, Ancestor;
    Standing(m, refs, r);
    EnclosesDepth(refs[r].sub, s);
  }

  // ---------- what comes next ----------

  lemma FirstOfBody(m: Code, refs: seq<CodeRef>, s: Subr, i: nat, base: nat)
    requires Sized(m) && i < |m.ops| && Included(m, s, i) && Segment(m, refs, s, i, base)
    ensures base < |refs| && refs[base].inumber == i && refs[base].sub == s
  {
    hide Body, Included;
    SegmentParts(m, refs, s, i, base);
  }

  /** Falling through within a call reaches the next copy. */
  lemma NextCopy(m: Code, refs: seq<CodeRef>, p: nat, i: nat)
    requires Sized(m) && refs == Refs(m) && p < |refs| && refs[p].inumber == i && i + 1 < |m.ops|
    requires !Calls(m, i) && Included(m, refs[p].sub, i + 1)
    ensures p + 1 < |refs| && refs[p + 1].inumber == i + 1 && refs[p + 1].sub == refs[p].sub
  {
    hide Body, Refs, Included, Segment;
    Standing(m, refs, p);
    SegmentParts(m, refs, refs[p].sub, i, p);
    FirstOfBody(m, refs, refs[p].sub, i + 1, p + 1);
  }

  /** A dropped jsr falls into the first copy of its subroutine, and any other is followed by a copy
      made for its call. */
  lemma CallCopy(m: Code, refs: seq<CodeRef>, p: nat, i: nat)
    requires Sized(m) && refs == Refs(m) && p < |refs| && refs[p].inumber == i < |m.ops| && Calls(m, i)
    requires var t := m.ops[i].target; t < |m.ops| && Included(m, Sub(p, t, refs[p].sub), t)
    ensures var t := m.ops[i].target;
            p + 1 < |refs| && refs[p + 1].sub == Sub(p, t, refs[p].sub)
            && (refs[p].flag == Skipped ==> refs[p + 1].inumber == t)
            && (refs[p].flag == Skipped || refs[p].flag == JsrTargetedGoto)
            && Live(m, refs, Sub(p, t, refs[p].sub))
  {
    hide Body, Refs;
    var t := m.ops[i].target;
    var s := Sub(p, t, refs[p].sub);
    Standing(m, refs, p);
    SegmentParts(m, refs, refs[p].sub, i, p);
    hide Included, Segment;
    var q := SegmentComplete(m, refs, s, 0, p + 1, t);
    FirstOfSegment(m, refs, s, 0, p + 1, t);
  }

  lemma {:induction false} FirstOfSegment(m: Code, refs: seq<CodeRef>, s: Subr, i: nat, base: nat, j: nat)
    requires Sized(m) && i <= j < |m.ops| && Included(m, s, j) && Segment(m, refs, s, i, base)
    ensures base < |refs| && refs[base].sub == s && Body(m, s, i, base) != [] && Body(m, s, i, base)[0] == refs[base]
    decreases |m.ops| - i
  {
    if Included(m, s, i) {
      SegmentParts(m, refs, s, i, base);
    } else {
      FirstOfSegment(m, refs, s, i + 1, base, j);
    }
  }

  /** A dropped ret falls to the end of its call's copies, where the return point's copy stands. */
  lemma ReturnCopy(m: Code, refs: seq<CodeRef>, p: nat, i: nat, c: nat)
    requires Sized(m) && refs == Refs(m) && p < |refs| && refs[p].inumber == i < |m.ops| && m.ops[i].Ret?
    requires refs[p].sub.Sub? && refs[p].sub.caller == c
    ensures c < |refs| && refs[c].sub == refs[p].sub.parent && refs[c].inumber < |m.ops|
    ensures refs[p].flag == Skipped || refs[p].flag == RetSimpleGoto
    ensures var next := End(m, refs[p].sub, 0, c + 1);
            && (refs[p].flag == Skipped ==> p + 1 == next)
            && (refs[c].inumber + 1 < |m.ops| && Included(m, refs[c].sub, refs[c].inumber + 1) ==>
                  next < |refs| && refs[next].inumber == refs[c].inumber + 1 && refs[next].sub == refs[c].sub)
  {
    hide Body, Refs, Included, Segment;
    Standing(m, refs, p);
    SegmentParts(m, refs, refs[p].sub, i, p);
    Standing(m, refs, c);
    SegmentParts(m, refs, refs[c].sub, refs[c].inumber, c);
    var next := End(m, refs[p].sub, 0, c + 1);
    assert next == InnerEnd(m, refs[c].sub, refs[c].inumber, c);
    if refs[c].inumber + 1 < |m.ops| && Included(m, refs[c].sub, refs[c].inumber + 1) {
      FirstOfBody(m, refs, refs[c].sub, refs[c].inumber + 1, next);
    }
  }
}
