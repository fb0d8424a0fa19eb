/** Building the inlined list: one recursive pass over the instructions for every call. */
module InlineJsr {
  import opened Subroutines
  import opened InlinedList

  /** The places of the copies of instruction `i`, latest first. */
  function Places(refs: seq<CodeRef>, i: nat): (r: seq<nat>)
    ensures forall q :: q in r <==> 0 <= q < |refs| && refs[q].inumber == i
    ensures forall k :: 0 <= k < |r| ==> r[k] < |refs| && refs[r[k]].inumber == i
  {
    if refs == [] then []
    else
      var k := |refs| - 1;
      if refs[k].inumber == i then [k] + Places(refs[..k], i) else Places(refs[..k], i)
  }

  lemma PlacesAppend(refs: seq<CodeRef>, r: CodeRef, i: nat)
    ensures Places(refs + [r], i) == if r.inumber == i then [|refs|] + Places(refs, i) else Places(refs, i)
  {
    assert (refs + [r])[..|refs|] == refs;
  }

  lemma {:induction false} PlacesFlag(refs: seq<CodeRef>, q: nat, flag: Flag, i: nat)
    requires q < |refs|
    ensures Places(refs[q := refs[q].(flag := flag)], i) == Places(refs, i)
    decreases |refs|
  {
    var k := |refs| - 1;
    var new_ := refs[q := refs[q].(flag := flag)];
    if q < k {
      assert new_[..k] == refs[..k][q := refs[..k][q].(flag := flag)];
      PlacesFlag(refs[..k], q, flag, i);
    } else {
      assert new_[..k] == refs[..k];
    }
  }

  /** No subroutine has two ret instructions, and none stands outside all subroutines. */
  predicate OneRet(m: Code)
    requires Sized(m)
  {
    && (forall i :: 0 <= i < |m.ops| && m.reached[i] && m.ops[i].Ret? ==> m.chains[i] != [])
    && forall i, j :: 0 <= i < j < |m.ops| && m.reached[i] && m.reached[j] && m.ops[i].Ret? && m.ops[j].Ret? ==>
         m.chains[i] != m.chains[j]
  }

  // ---------- matching an instruction against a call ----------

  method MatchSubroutine(masks: seq<nat>, sub: Subr) returns (ok: bool)
    requires |masks| == Depth(sub)
    ensures ok <==> masks == Chain(sub)
  {
    var s, i := sub, Depth(sub);
    assert masks[..i] == masks;
    while i > 0
      invariant i == Depth(s) <= |masks|
      invariant masks == Chain(sub) <==> masks[..i] == Chain(s)
    {
      assert masks[..i] == masks[..i - 1] + [masks[i - 1]];
      if masks[i - 1] != s.target {
        return false;
      }
      s, i := s.parent, i - 1;
    }
    return true;
  }

  // ---------- progress of one pass ----------

  /** The first jsr flag of a call is revised once its first copy is known. */
  function Revised(refs: seq<CodeRef>, s: Subr, b: seq<CodeRef>): (r: seq<CodeRef>)
    requires s.Sub? ==> s.caller < |refs|
    ensures |r| == |refs|
  {
    if s.Sub? && b != [] && b[0].inumber != s.target
    then refs[s.caller := refs[s.caller].(flag := JsrTargetedGoto)]
    else refs
  }

  /** `done` has been appended, and the rest of the call's copies are still to come. */
  ghost predicate Progress(m: Code, s: Subr, base: nat, done: seq<CodeRef>, i: nat)
    requires Sized(m)
  {
    i <= |m.ops| && Body(m, s, 0, base) == done + Body(m, s, i, base + |done|)
  }

  lemma ProgressSkip(m: Code, s: Subr, base: nat, done: seq<CodeRef>, i: nat)
    requires Sized(m) && i < |m.ops| && Progress(m, s, base, done, i) && !Included(m, s, i)
    ensures Progress(m, s, base, done, i + 1)
  {}

  lemma ProgressStep(m: Code, s: Subr, base: nat, done: seq<CodeRef>, i: nat)
    requires Sized(m) && i < |m.ops| && Progress(m, s, base, done, i) && Included(m, s, i)
    ensures var b := base + |done|;
            var inner := Inner(m, s, i, b);
            var rest := Body(m, s, i + 1, b + 1 + |inner|);
            Progress(m, s, base, done + [CodeRef(i, s, FlagOf(m, i, inner, rest))] + inner, i + 1)
  {
    var b := base + |done|;
    var inner := Inner(m, s, i, b);
    var rest := Body(m, s, i + 1, b + 1 + |inner|);
    var h := [CodeRef(i, s, FlagOf(m, i, inner, rest))];
    assert done + (h + inner + rest) == (done + h + inner) + rest;
  }

  /** What including instruction `i` appends, with the flag of a ret left open. */
  function Appended(m: Code, s: Subr, i: nat, base: nat): (r: seq<CodeRef>)
    requires Sized(m) && i < |m.ops| && Included(m, s, i)
    ensures |r| == 1 + |Inner(m, s, i, base)|
  {
    var inner := Inner(m, s, i, base);
    [CodeRef(i, s, if m.ops[i].Ret? then Normal else FlagOf(m, i, inner, []))] + inner
  }

  function FinalFlag(total: nat, place: nat): Flag {
    if total == place + 1 then Skipped else RetSimpleGoto
  }

  /** `done` has been appended to the list, apart from the flag of the ret at place `ret`. */
  ghost predicate ListIs(before: seq<CodeRef>, s: Subr, refs: seq<CodeRef>, done: seq<CodeRef>, ret: int) {
    && (s.Sub? ==> s.caller < |before|) && |refs| == |before| + |done| && ret < |refs|
    && (ret < 0 ==> refs == Revised(before, s, done) + done)
    && (ret >= 0 ==> ret >= |before|)
    && (ret >= 0 ==> refs == Revised(before, s, done) + Unflagged(done, ret - |before|))
  }

  function Unflagged(b: seq<CodeRef>, k: nat): (r: seq<CodeRef>)
    requires k < |b|
    ensures |r| == |b|
  {
    b[k := b[k].(flag := Normal)]
  }

  /** The list during a pass over the instructions before `i`. */
  ghost predicate Looping(m: Code, s: Subr, before: seq<CodeRef>, refs: seq<CodeRef>, done: seq<CodeRef>, ret: int,
                          i: nat)
    requires Sized(m)
  {
    var base := |before|;
    && Progress(m, s, base, done, i) && ListIs(before, s, refs, done, ret)
    && End(m, s, i, |refs|) == End(m, s, 0, base)
    && (ret >= 0 ==> done[ret - base].flag == FinalFlag(End(m, s, 0, base), ret))
    && (ret >= 0 ==> RetBefore(m, s, i, done[ret - base].inumber))
  }

  predicate RetBefore(m: Code, s: Subr, i: nat, j: nat)
    requires Sized(m)
  {
    j < i && j < |m.ops| && m.ops[j].Ret? && Included(m, s, j)
  }

  function RevisedFirst(refs: seq<CodeRef>, s: Subr, first: bool, i: nat): seq<CodeRef>
    requires s.Sub? ==> s.caller < |refs|
  {
    if first && s.Sub? && i != s.target then refs[s.caller := refs[s.caller].(flag := JsrTargetedGoto)] else refs
  }

  lemma LoopingSkip(m: Code, s: Subr, before: seq<CodeRef>, refs: seq<CodeRef>, done: seq<CodeRef>, ret: int, i: nat)
    requires Sized(m) && i < |m.ops| && !Included(m, s, i)
    requires Looping(m, s, before, refs, done, ret, i)
    ensures Looping(m, s, before, refs, done, ret, i + 1)
  {
    hide Included, Revised, Unflagged;
    ProgressSkip(m, s, |before|, done, i);
    EndSkip(m, s, i, |refs|);
    hide Progress, End, Body;
  }

  lemma EndSkip(m: Code, s: Subr, i: nat, base: nat)
    requires Sized(m) && i < |m.ops| && !Included(m, s, i)
    ensures End(m, s, i, base) == End(m, s, i + 1, base)
  {}

  lemma EndStep(m: Code, s: Subr, i: nat, base: nat)
    requires Sized(m) && i < |m.ops| && Included(m, s, i)
    ensures End(m, s, i, base) == End(m, s, i + 1, base + 1 + |Inner(m, s, i, base)|)
  {
    hide Included;
  }

  lemma FlagOfRest(m: Code, s: Subr, i: nat, inner: seq<CodeRef>, base: nat)
    requires Sized(m) && i < |m.ops| && base > 0
    ensures FlagOf(m, i, inner, Body(m, s, i + 1, base)) ==
            if m.ops[i].Ret? then FinalFlag(End(m, s, i + 1, base), base - 1) else FlagOf(m, i, inner, [])
  {
    hide Body;
  }

  lemma LoopingStep(m: Code, s: Subr, before: seq<CodeRef>, refs: seq<CodeRef>, done: seq<CodeRef>, ret: int, i: nat,
                    after: seq<CodeRef>) returns (h: CodeRef)
    requires Sized(m) && OneRet(m) && i < |m.ops| && Included(m, s, i) && (s.Sub? ==> s.caller < |refs|)
    requires Looping(m, s, before, refs, done, ret, i)
    requires after == RevisedFirst(refs, s, done == [], i) + Appended(m, s, i, |refs|)
    ensures Looping(m, s, before, after, done + ([h] + Inner(m, s, i, |refs|)),
                    if m.ops[i].Ret? then |refs| else ret, i + 1)
  {
    hide Progress, End, Body, FlagOf, Inner, OneRet, Revised, Unflagged, Appended, RevisedFirst, Included;
    var base, inner := |before|, Inner(m, s, i, |refs|);
    h := CodeRef(i, s, FlagOf(m, i, inner, Body(m, s, i + 1, |refs| + 1 + |inner|)));
    var add := [h] + inner;
    NoTwoRets(m, s, i, if ret >= 0 then done[ret - base].inumber else i);
    ProgressStep(m, s, base, done, i);
    EndStep(m, s, i, |refs|);
    StepFacts(m, s, i, |refs|);
    assert done + [h] + inner == done + add;
    StepRevised(s, before, refs, done, ret, i, after, add, m.ops[i].Ret?);
  }

  lemma StepFacts(m: Code, s: Subr, i: nat, base: nat)
    requires Sized(m) && i < |m.ops| && Included(m, s, i)
    ensures var inner := Inner(m, s, i, base);
            var h := CodeRef(i, s, FlagOf(m, i, inner, Body(m, s, i + 1, base + 1 + |inner|)));
            && Appended(m, s, i, base) == (if m.ops[i].Ret? then Unflagged([h] + inner, 0) else [h] + inner)
            && (m.ops[i].Ret? ==> inner == [] && h.flag == FinalFlag(End(m, s, i + 1, base + 1), base))
  {
    var inner := Inner(m, s, i, base);
    FlagOfRest(m, s, i, inner, base + 1 + |inner|);
    if m.ops[i].Ret? {
      InnerOfRet(m, s, i, base);
    }
    hide Body, Inner, Included, End;
  }

  /** The list after a step that appends `add`; the flag of a ret is left open. */
  lemma StepRevised(s: Subr, before: seq<CodeRef>, refs: seq<CodeRef>, done: seq<CodeRef>, ret: int, i: nat,
                    after: seq<CodeRef>, add: seq<CodeRef>, isRet: bool)
    requires ListIs(before, s, refs, done, ret) && add != [] && add[0].inumber == i && (isRet ==> ret < 0)
    requires s.Sub? ==> s.caller < |refs|
    requires after == RevisedFirst(refs, s, done == [], i) + if isRet then Unflagged(add, 0) else add
    ensures ListIs(before, s, after, done + add, if isRet then |refs| else ret)
  {
    var front := Revised(before, s, done + add);
    if ret < 0 {
      RevisedWith(s, before, done, done, add);
      hide Revised, RevisedFirst, Unflagged;
      if isRet {
        FlagLeftOpen(front, done, add);
      } else {
        Regrouped(front, done, add);
      }
    } else {
      RevisedWith(s, before, done, Unflagged(done, ret - |before|), add);
      hide Revised, RevisedFirst, Unflagged;
      FlagStillOpen(front, done, add, ret - |before|);
    }
  }

  /** Only the first copy of a call decides about its caller's flag. */
  lemma RevisedWith(s: Subr, before: seq<CodeRef>, done: seq<CodeRef>, placed: seq<CodeRef>, add: seq<CodeRef>)
    requires (s.Sub? ==> s.caller < |before|) && add != [] && |placed| == |done|
    ensures RevisedFirst(Revised(before, s, done) + placed, s, done == [], add[0].inumber)
            == Revised(before, s, done + add) + placed
  {
    if done == [] {
      assert placed == [] && done + add == add && before + placed == before;
      assert RevisedFirst(before, s, true, add[0].inumber) + placed == RevisedFirst(before, s, true, add[0].inumber);
    } else {
      assert (done + add)[0] == done[0];
    }
  }

  lemma Regrouped(front: seq<CodeRef>, done: seq<CodeRef>, add: seq<CodeRef>)
    ensures front + done + add == front + (done + add)
  {}

  lemma FlagLeftOpen(front: seq<CodeRef>, done: seq<CodeRef>, add: seq<CodeRef>)
    requires add != []
    ensures front + done + Unflagged(add, 0) == front + Unflagged(done + add, |done|)
  {
    assert done + Unflagged(add, 0) == Unflagged(done + add, |done|);
  }

  lemma FlagStillOpen(front: seq<CodeRef>, done: seq<CodeRef>, add: seq<CodeRef>, k: nat)
    requires k < |done|
    ensures front + Unflagged(done, k) + add == front + Unflagged(done + add, k)
  {
    assert Unflagged(done, k) + add == Unflagged(done + add, k);
  }

  lemma InnerOfRet(m: Code, s: Subr, i: nat, base: nat)
    requires Sized(m) && i < |m.ops| && Included(m, s, i) && m.ops[i].Ret?
    ensures Inner(m, s, i, base) == []
  {}

  lemma NoTwoRets(m: Code, s: Subr, i: nat, j: nat)
    requires Sized(m) && OneRet(m) && i < |m.ops| && Included(m, s, i)
    ensures m.ops[i].Ret? ==> !RetBefore(m, s, i, j)
    ensures m.ops[i].Ret? ==> s.Sub?
  {}

  /** The place after the copies made for the jsr at place `q`. */
  function CallEnd(m: Code, refs: seq<CodeRef>, q: nat): nat
    requires Sized(m) && q < |refs| && refs[q].inumber < |m.ops| && Calls(m, refs[q].inumber)
  {
    End(m, Sub(q, m.ops[refs[q].inumber].target, refs[q].sub), 0, q + 1)
  }

  /** The ends of the calls made from place `lo` on are known. */
  ghost predicate EndsKnown(m: Code, refs: seq<CodeRef>, next: map<nat, nat>, lo: nat)
    requires Sized(m)
  {
    forall q: nat :: lo <= q < |refs| && refs[q].inumber < |m.ops| && Calls(m, refs[q].inumber) ==>
      q in next && next[q] == CallEnd(m, refs, q)
  }

  /** Nothing known about earlier calls is lost, apart from call `s` itself. */
  ghost predicate EndsKept(next: map<nat, nat>, after: map<nat, nat>, s: Subr, hi: nat) {
    forall q: nat :: q < hi && q in next && (s.Sub? ==> q != s.caller) ==> q in after && after[q] == next[q]
  }

  /** The list has grown, and flags may have changed. */
  predicate Extends(refs: seq<CodeRef>, after: seq<CodeRef>) {
    |refs| <= |after| && forall q :: 0 <= q < |refs| ==>
      after[q].inumber == refs[q].inumber && after[q].sub == refs[q].sub
  }

  lemma EndsExtended(m: Code, refs: seq<CodeRef>, next: map<nat, nat>, after: seq<CodeRef>, then_: map<nat, nat>,
                     lo: nat)
    requires Sized(m) && EndsKnown(m, refs, next, lo) && Extends(refs, after)
    requires EndsKnown(m, after, then_, |refs|) && EndsKept(next, then_, Top, |refs|)
    ensures EndsKnown(m, after, then_, lo)
  {
    hide End;
    forall q: nat | lo <= q < |after| && after[q].inumber < |m.ops| && Calls(m, after[q].inumber)
      ensures q in then_ && then_[q] == CallEnd(m, after, q)
    {
      if q < |refs| {
        assert q in next && next[q] == CallEnd(m, refs, q);
      }
    }
  }

  /** The copies of a call, with its jsr's own flag, as its caller appends them. */
  lemma CallAppended(m: Code, s: Subr, i: nat, refs: seq<CodeRef>, inner: seq<CodeRef>)
    requires Sized(m) && i < |m.ops| && Calls(m, i)
    ensures Revised(refs + [CodeRef(i, s, Skipped)], Sub(|refs|, m.ops[i].target, s), inner) + inner
         == refs + ([CodeRef(i, s, FlagOf(m, i, inner, []))] + inner)
  {
    RevisedLast(refs, CodeRef(i, s, Skipped), Sub(|refs|, m.ops[i].target, s), inner);
    assert refs + [CodeRef(i, s, FlagOf(m, i, inner, []))] + inner
           == refs + ([CodeRef(i, s, FlagOf(m, i, inner, []))] + inner);
  }

  lemma RevisedLast(refs: seq<CodeRef>, r: CodeRef, c: Subr, inner: seq<CodeRef>)
    requires c.Sub? && c.caller == |refs| && r.flag == Skipped
    ensures Revised(refs + [r], c, inner) ==
            refs + [r.(flag := if inner != [] && inner[0].inumber != c.target then JsrTargetedGoto else Skipped)]
  {}

  lemma NothingCalled(m: Code, s: Subr, i: nat, base: nat)
    requires Sized(m) && i < |m.ops| && Included(m, s, i) && !Calls(m, i)
    ensures Appended(m, s, i, base) ==
            [CodeRef(i, s, match m.ops[i] case Jsr(_, _) => JsrSimpleGoto case StoreReturn => Skipped case _ => Normal)]
  {}

  class JsrContext {
    const m: Code
    const mapping: array<seq<nat>>
    var refs: seq<CodeRef>
    /** The place after the copies of each call, by the place of its jsr. */
    var next: map<nat, nat>

    ghost predicate Valid()
      reads this, mapping
    {
      && Sized(m) && OneRet(m) && mapping.Length == |m.ops|
      && (forall i :: 0 <= i < mapping.Length ==> mapping[i] == Places(refs, i))
      && forall q :: 0 <= q < |refs| ==> refs[q].inumber < |m.ops|
    }

    constructor (code: Code)
      requires Sized(code) && OneRet(code)
      ensures Valid() && fresh(mapping) && m == code && refs == [] && next == map[]
    {
      m := code;
      mapping := new seq<nat>[|code.ops|](i => []);
      refs, next := [], map[];
    }

    method Append(r: CodeRef)
      requires Valid() && r.inumber < |m.ops|
      modifies this`refs, mapping
      ensures Valid() && refs == old(refs) + [r]
    {
      hide OneRet, Sized, Places;
      forall i: nat | i < mapping.Length
        ensures Places(refs + [r], i) == if r.inumber == i then [|refs|] + Places(refs, i) else Places(refs, i)
      {
        PlacesAppend(refs, r, i);
      }
      mapping[r.inumber] := [|refs|] + mapping[r.inumber];
      refs := refs + [r];
    }

    method SetFlag(q: nat, flag: Flag)
      requires Valid() && q < |refs|
      modifies this`refs
      ensures Valid() && refs == old(refs)[q := old(refs)[q].(flag := flag)]
    {
      hide OneRet, Sized;
      forall i: nat | i < mapping.Length
        ensures Places(refs[q := refs[q].(flag := flag)], i) == Places(refs, i)
      {
        PlacesFlag(refs, q, flag, i);
      }
      refs := refs[q := refs[q].(flag := flag)];
    }

    /** Appends the copy of instruction `i`, without what it calls. */
    method IncludeCopy(s: Subr, i: nat, first: bool)
      requires Valid() && i < |m.ops| && (s.Sub? ==> s.caller < |refs|)
      modifies this`refs, mapping
      ensures Valid()
      ensures refs == RevisedFirst(old(refs), s, first, i) +
                      [CodeRef(i, s, match m.ops[i] case Jsr(_, comesBack) => if comesBack then Skipped
                        else JsrSimpleGoto
                                                    case StoreReturn => Skipped
                                                    case _ => Normal)]
    {
      hide OneRet, Places;
      var place := |refs|;
      Append(CodeRef(i, s, Normal));
      if first && s.Sub? && i != s.target {
        SetFlag(s.caller, JsrTargetedGoto);
      }
      assert refs == RevisedFirst(old(refs), s, first, i) + [CodeRef(i, s, Normal)];
      match m.ops[i] {
        case Jsr(target, comesBack) => SetFlag(place, if comesBack then Skipped else JsrSimpleGoto);
        case StoreReturn => SetFlag(place, Skipped);
        case _ =>
      }
    }

    /** Appends the copy of instruction `i` and, if it calls a subroutine, that call's copies. */
    method Include(s: Subr, i: nat, first: bool)
      requires Valid() && i < |m.ops| && Included(m, s, i) && (s.Sub? ==> s.caller < |refs|)
      modifies this, mapping
      ensures Valid() && refs == RevisedFirst(old(refs), s, first, i) + Appended(m, s, i, |old(refs)|)
      ensures EndsKnown(m, refs, next, |old(refs)|) && EndsKept(old(next), next, Top, |old(refs)|)
      decreases Room(m, s), |m.ops| - i
    {
      hide OneRet, Body, Inner, Places, Included, Revised, Appended, End, RevisedFirst, FlagOf;
      var place := |refs|;
      ghost var revised := RevisedFirst(refs, s, first, i);
      RevisedLength(refs, s, first, i);
      RoomInside(m, s, i, place);
      IncludeCopy(s, i, first);
      if m.ops[i].Jsr? && m.ops[i].comesBack {
        CallAppended(m, s, i, revised, Inner(m, s, i, place));
        AppendedCall(m, s, i, place);
        RewriteOneSubroutine(Sub(place, m.ops[i].target, s));
        CallEndsKnown(m, revised, s, i, refs, next);
      } else {
        NothingCalled(m, s, i, place);
      }
    }

    /** Appends the copies made for one call. */
    method RewriteOneSubroutine(s: Subr)
      requires Valid() && (s.Sub? ==> s.caller < |refs|)
      modifies this, mapping
      ensures Valid() && refs == Revised(old(refs), s, Body(m, s, 0, |old(refs)|)) + Body(m, s, 0, |old(refs)|)
      ensures EndsKnown(m, refs, next, |old(refs)|) && EndsKept(old(next), next, s, |old(refs)|)
      ensures s.Sub? ==> s.caller in next && next[s.caller] == |refs|
      decreases Room(m, s), |m.ops| + 1
    {
      hide Body, Included, Revised, RevisedFirst, Appended, OneRet, Places, Progress, EndsKnown, EndsKept, Looping;
      hide CallEnd;
      ghost var before, mid := refs, next;
      var i, ret, count := 0, -1, 0;
      LoopingStart(m, s, refs);
      NoEnds(m, refs, next);
      ghost var done: seq<CodeRef> := [];
      while i < |m.ops|
        invariant Valid() && i <= |m.ops| && Looping(m, s, before, refs, done, ret, i) && |before| <= |refs|
        invariant EndsKnown(m, refs, next, |before|) && EndsKept(mid, next, Top, |before|)
        invariant count == 0 <==> done == []
      {
        var ok := m.reached[i] && |m.chains[i]| == Depth(s);
        if ok && s.Sub? {
          ok := MatchSubroutine(m.chains[i], s);
        }
        IncludedIs(m, s, i);
        if ok {
          ghost var here, then_ := refs, next;
          var place := |refs|;
          Include(s, i, count == 0);
          ghost var h := LoopingStep(m, s, before, here, done, ret, i, refs);
          StepExtends(m, s, here, count == 0, i, refs);
          EndsExtended(m, here, then_, refs, next, |before|);
          KeptTransitive(mid, then_, next, |before|, |here|);
          done := done + ([h] + Inner(m, s, i, |here|));
          count := count + 1;
          if m.ops[i].Ret? {
            ret := place;
          }
        } else {
          LoopingSkip(m, s, before, refs, done, ret, i);
        }
        i := i + 1;
      }
      LoopingEnd(m, s, before, refs, done, ret);
      KeptLast(mid, next, s, |before|, |refs|);
      Finish(s, ret, |before|);
    }

    method Finish(s: Subr, ret: int, ghost lo: nat)
      requires Valid() && (s.Sub? ==> s.caller < lo) && (ret >= 0 ==> s.Sub? && ret < |refs|)
      requires EndsKnown(m, refs, next, lo)
      modifies this
      ensures Valid() && refs == if ret < 0 then old(refs)
                                 else old(refs)[ret := old(refs)[ret].(flag := if |old(refs)| == ret + 1 then Skipped
                                   else RetSimpleGoto)]
      ensures next == if s.Sub? then old(next)[s.caller := |refs|] else old(next)
      ensures EndsKnown(m, refs, next, lo)
    {
      hide Places, OneRet, End;
      ghost var before := refs;
      if s.Sub? {
        next := next[s.caller := |refs|];
        if ret >= 0 {
          SetFlag(ret, if |refs| == ret + 1 then Skipped else RetSimpleGoto);
        }
      }
      forall q: nat | lo <= q < |refs| && Calls(m, refs[q].inumber)
        ensures q in next && next[q] == CallEnd(m, refs, q)
      {
        assert CallEnd(m, before, q) == CallEnd(m, refs, q);
      }
    }
  }

  lemma LoopingStart(m: Code, s: Subr, refs: seq<CodeRef>)
    requires Sized(m) && (s.Sub? ==> s.caller < |refs|)
    ensures Looping(m, s, refs, refs, [], -1, 0)
  {
    hide Body;
    assert refs + [] == refs;
  }

  lemma IncludedIs(m: Code, s: Subr, i: nat)
    requires Sized(m) && i < |m.ops|
    ensures Included(m, s, i) <==> m.reached[i] && |m.chains[i]| == Depth(s) && (s.Top? || m.chains[i] == Chain(s))
  {}

  lemma LoopingEnd(m: Code, s: Subr, before: seq<CodeRef>, refs: seq<CodeRef>, done: seq<CodeRef>, ret: int)
    requires Sized(m) && OneRet(m) && Looping(m, s, before, refs, done, ret, |m.ops|)
    ensures done == Body(m, s, 0, |before|) && (ret >= 0 ==> s.Sub? && |before| <= ret < |refs|)
    ensures var r := if ret < 0 then refs else refs[ret := refs[ret].(flag := if |refs| == ret + 1 then Skipped
            else RetSimpleGoto)];
            r == Revised(before, s, done) + done
  {
    ProgressEnd(m, s, |before|, done);
    EndLast(m, s, |refs|);
    hide Body, Revised, Included, RetBefore, Unflagged, OneRet, Progress;
    if ret >= 0 {
      RetInside(m, s, done[ret - |before|].inumber);
      Reflagged(Revised(before, s, done), done, ret - |before|);
    }
  }

  lemma ProgressEnd(m: Code, s: Subr, base: nat, done: seq<CodeRef>)
    requires Sized(m) && Progress(m, s, base, done, |m.ops|)
    ensures done == Body(m, s, 0, base)
  {
    assert Body(m, s, |m.ops|, base + |done|) == [];
    hide Body;
    assert done + [] == done;
  }

  lemma RetInside(m: Code, s: Subr, j: nat)
    requires Sized(m) && OneRet(m) && RetBefore(m, s, |m.ops|, j)
    ensures s.Sub?
  {
    NoTwoRets(m, s, j, 0);
  }

  /** Setting the flag that had been left out completes the list. */
  lemma Reflagged(front: seq<CodeRef>, done: seq<CodeRef>, k: nat)
    requires k < |done|
    ensures var refs := front + Unflagged(done, k);
            refs[|front| + k := refs[|front| + k].(flag := done[k].flag)] == front + done
  {
    assert done == Unflagged(done, k)[k := done[k]];
  }

  lemma RevisedLength(refs: seq<CodeRef>, s: Subr, first: bool, i: nat)
    requires s.Sub? ==> s.caller < |refs|
    ensures |RevisedFirst(refs, s, first, i)| == |refs|
  {}

  lemma AppendedCall(m: Code, s: Subr, i: nat, base: nat)
    requires Sized(m) && i < |m.ops| && Included(m, s, i) && Calls(m, i)
    ensures Inner(m, s, i, base) == Body(m, Sub(base, m.ops[i].target, s), 0, base + 1)
    ensures Appended(m, s, i, base) == [CodeRef(i, s, FlagOf(m, i, Inner(m, s, i, base), []))] + Inner(m, s, i, base)
  {
    hide Body, Included, FlagOf;
  }

  lemma RoomInside(m: Code, s: Subr, i: nat, place: nat)
    requires Sized(m) && i < |m.ops| && Included(m, s, i)
    ensures forall t :: Room(m, Sub(place, t, s)) < Room(m, s)
  {}

  lemma NoEnds(m: Code, refs: seq<CodeRef>, next: map<nat, nat>)
    requires Sized(m)
    ensures EndsKnown(m, refs, next, |refs|) && EndsKept(next, next, Top, |refs|)
  {}

  lemma CallEndsKnown(m: Code, refs: seq<CodeRef>, s: Subr, i: nat, after: seq<CodeRef>, next: map<nat, nat>)
    requires Sized(m) && i < |m.ops| && Included(m, s, i) && Calls(m, i) && after == refs + Appended(m, s, i, |refs|)
    requires |refs| in next && next[|refs|] == |after| && EndsKnown(m, after, next, |refs| + 1)
    ensures EndsKnown(m, after, next, |refs|)
  {
    hide Body, Included;
    assert after[|refs|].inumber == i && after[|refs|].sub == s;
    assert CallEnd(m, after, |refs|) == |after|;
  }

  lemma StepExtends(m: Code, s: Subr, refs: seq<CodeRef>, first: bool, i: nat, after: seq<CodeRef>)
    requires Sized(m) && i < |m.ops| && Included(m, s, i) && (s.Sub? ==> s.caller < |refs|)
    requires after == RevisedFirst(refs, s, first, i) + Appended(m, s, i, |refs|)
    ensures Extends(refs, after)
  {
    hide Appended, Included;
  }

  lemma KeptTransitive(a: map<nat, nat>, b: map<nat, nat>, c: map<nat, nat>, hi: nat, higher: nat)
    requires EndsKept(a, b, Top, hi) && EndsKept(b, c, Top, higher) && hi <= higher
    ensures EndsKept(a, c, Top, hi)
  {}

  lemma KeptLast(a: map<nat, nat>, b: map<nat, nat>, s: Subr, hi: nat, end: nat)
    requires EndsKept(a, b, Top, hi)
    ensures EndsKept(a, if s.Sub? then b[s.caller := end] else b, s, hi)
  {}
}
