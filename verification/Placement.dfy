/** What each copy in the inlined list needs about it, and when the list has it. */
module Placement {
  import opened Wrappers
  import opened Subroutines
  import opened InlinedList
  import opened InlineJsr
  import opened NewCode

  /** A copy of instruction `j` for call `s` stands at place `q`. */
  predicate CopyAt(refs: seq<CodeRef>, q: nat, j: nat, s: Subr) {
    q < |refs| && refs[q].inumber == j && refs[q].sub == s
  }

  /** Falling through goes to a copy of the next instruction for the same call exactly if that stays in
      the subroutine. */
  lemma FallsToOwnIff(m: Code, refs: seq<CodeRef>, p: nat, i: nat)
    requires Sized(m) && refs == Refs(m) && p < |refs| && refs[p].inumber == i < |m.ops| && !Calls(m, i)
    ensures CopyAt(refs, p + 1, i + 1, refs[p].sub) <==> InPlace(m, i, i + 1)
  {
    hide Refs, Segment;
    Standing(m, refs, p);
    if InPlace(m, i, i + 1) {
      NextCopy(m, refs, p, i);
    } else if CopyAt(refs, p + 1, i + 1, refs[p].sub) {
      Standing(m, refs, p + 1);
      assert false;
    }
  }

  /** A jsr has a copy of its target made for its own call exactly if the target is in the subroutine
      that is called, and in no other. Otherwise nothing of the subroutine may be there at all. */
  lemma CallEntersIff(m: Code, refs: seq<CodeRef>, p: nat, i: nat)
    requires Sized(m) && refs == Refs(m) && p < |refs| && refs[p].inumber == i < |m.ops| && Calls(m, i)
    ensures var t := m.ops[i].target;
            (exists q :: CopyAt(refs, q, t, Sub(p, t, refs[p].sub)))
            <==> t < |m.ops| && m.reached[t] && m.chains[t] == m.chains[i] + [t]
  {
    hide Refs, Segment, Body;
    var t := m.ops[i].target;
    var s := Sub(p, t, refs[p].sub);
    Standing(m, refs, p);
    if q :| CopyAt(refs, q, t, s) {
      Standing(m, refs, q);
    }
    if t < |m.ops| && m.reached[t] && m.chains[t] == m.chains[i] + [t] {
      SegmentParts(m, refs, refs[p].sub, i, p);
      var q := SegmentComplete(m, refs, s, 0, p + 1, t);
      assert CopyAt(refs, q, t, s);
    }
  }

  /** Behind all copies made for a call stands the return point's copy, for the caller's own call,
      exactly if the return point is in the jsr's subroutine. */
  lemma ReturnPointIff(m: Code, refs: seq<CodeRef>, p: nat, i: nat)
    requires Sized(m) && refs == Refs(m) && p < |refs| && refs[p].inumber == i < |m.ops| && Calls(m, i)
    ensures CopyAt(refs, CallEnd(m, refs, p), i + 1, refs[p].sub) <==> InPlace(m, i, i + 1)
  {
    hide Refs, Segment, Body;
    Standing(m, refs, p);
    SegmentParts(m, refs, refs[p].sub, i, p);
    var next := CallEnd(m, refs, p);
    assert next == InnerEnd(m, refs[p].sub, i, p);
    if InPlace(m, i, i + 1) {
      FirstOfBody(m, refs, refs[p].sub, i + 1, next);
    } else if CopyAt(refs, next, i + 1, refs[p].sub) {
      Standing(m, refs, next);
      assert false;
    }
  }

  /** So a ret goes back correctly exactly if the return point of its call is in place. */
  lemma RetReturnsIff(m: Code, refs: seq<CodeRef>, p: nat)
    requires Sized(m) && refs == Refs(m) && p < |refs| && refs[p].sub.Sub?
    ensures var c := refs[p].sub.caller;
            c < |refs| && refs[c].inumber < |m.ops| && Calls(m, refs[c].inumber) && refs[c].sub == refs[p].sub.parent
            && (CopyAt(refs, CallEnd(m, refs, c), refs[c].inumber + 1, refs[c].sub)
                <==> InPlace(m, refs[c].inumber, refs[c].inumber + 1))
  {
    hide Refs, Segment, Body, CallEnd;
    Standing(m, refs, p);
    var c := refs[p].sub.caller;
    ReturnPointIff(m, refs, c, refs[c].inumber);
  }

  // ---------- all that a copy needs ----------

  predicate Finds(refs: seq<CodeRef>, s: Subr, t: nat) {
    TargetPlace(refs, s, t).Some?
  }

  /** Where control goes from the copy at `p`, a copy stands of the instruction that it should go to, for
      the call that it should be in. */
  ghost predicate Supplied(m: Code, refs: seq<CodeRef>, p: nat)
    requires Sized(m) && p < |refs| && refs[p].inumber < |m.ops|
  {
    var i, s := refs[p].inumber, refs[p].sub;
    && (match m.ops[i]
        case Plain => CopyAt(refs, p + 1, i + 1, s)
        case StoreReturn => CopyAt(refs, p + 1, i + 1, s)
        case If(t) => CopyAt(refs, p + 1, i + 1, s) && Finds(refs, s, t)
        case Goto(t) => Finds(refs, s, t)
        case Switch(ts) => forall k :: 0 <= k < |ts| ==> Finds(refs, s, ts[k])
        case Exit => true
        case Jsr(t, comesBack) =>
          if comesBack then (exists q :: CopyAt(refs, q, t, Sub(p, t, s)))
            && CopyAt(refs, CallEnd(m, refs, p), i + 1, s)
          else Finds(refs, s, t)
        case Ret => s.Sub?)
    && forall k :: 0 <= k < |m.handlers| && m.handlers[k].Protects(i) ==> Finds(refs, s, m.handlers[k].handler)
  }

  lemma FindsIff(m: Code, refs: seq<CodeRef>, p: nat, t: nat)
    requires Sized(m) && refs == Refs(m) && p < |refs|
    ensures refs[p].inumber < |m.ops| && (Finds(refs, refs[p].sub, t) <==> Outward(m, refs[p].inumber, t))
  {
    hide Refs, Segment, Find, Body;
    Standing(m, refs, p);
    if t < |m.ops| {
      TargetFoundIff(m, refs, p, t);
    } else if Finds(refs, refs[p].sub, t) {
      Standing(m, refs, TargetPlace(refs, refs[p].sub, t).value);
      assert false;
    }
  }

  /** A copy has what it needs if and only if its instruction is structured. */
  lemma SuppliedIff(m: Code, refs: seq<CodeRef>, p: nat)
    requires Sized(m) && refs == Refs(m) && p < |refs|
    ensures refs[p].inumber < |m.ops| && (Supplied(m, refs, p) <==> StructuredAt(m, refs[p].inumber))
  {
    hide Refs, Segment, Body, InPlace, Outward, Finds, CallEnd, Chain;
    var i := refs[p].inumber;
    OwnChain(m, refs, p);
    forall t: nat
      ensures Finds(refs, refs[p].sub, t) <==> Outward(m, i, t)
    {
      FindsIff(m, refs, p, t);
    }
    if Calls(m, i) {
      CallEntersIff(m, refs, p, i);
      ReturnPointIff(m, refs, p, i);
    } else {
      FallsToOwnIff(m, refs, p, i);
    }
  }

  lemma OwnChain(m: Code, refs: seq<CodeRef>, p: nat)
    requires Sized(m) && refs == Refs(m) && p < |refs|
    ensures refs[p].inumber < |m.ops| && (refs[p].sub.Sub? <==> m.chains[refs[p].inumber] != [])
  {
    hide Refs, Segment, Body;
    Standing(m, refs, p);
  }
}
