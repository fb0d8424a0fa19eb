/** The dataflow analysis: sweeps over the instructions until nothing changes, which it always
    reaches, and then every state that can flow anywhere has been accounted for. */
module Dataflow {
  import opened ClassTree
  import opened TypeMerge
  import opened MergeStates
  import opened StateRank
  import opened MergeInto
  import opened MergeLeast
  import opened Flow
  import opened FlowProgress

  // ---------- what instruction i passes on is welcome ----------

  ghost predicate Visiting(m: Method, i: nat, s: State)
    requires Legal(m) && i < |m.code|
  {
    && StateKnown(m.obj, m.depth, s) && s.Visited() && Shaped(m, i, s.stack)
    && REACHED in s.orFlags && Reachable(m, i) && Due(m, i, s)
  }

  /** The state after an effect is a known one. */
  lemma AfterKnown(m: Method, i: nat, s: State, and: set<nat>, or: set<nat>)
    requires WellFormed(m) && i < |m.code| && StateKnown(m.obj, m.depth, s) && s.Visited() && Shaped(m, i, s.stack)
    requires and <= s.andFlags + {0} && or <= s.orFlags + {2}
    ensures var r := m.step(i, s); StateKnown(m.obj, m.depth, State(r.stack, r.regs, and, or)) && r.stack.Stack?
    ensures forall k :: 0 <= k < |m.handlers| ==>
              StateKnown(m.obj, m.depth, State(m.handlers[k].stack, m.step(i, s).regs, and, or))
              && StateKnown(m.obj, m.depth, State(m.handlers[k].stack, s.regs, and, or))
  {
    hide AllKnown, MasksKnown, Reachable;
    assert StepKeeps(m, i, s) by { var r := m.step(i, s); }
  }

  /** What is left after an instruction is at most what closed states have there. */
  lemma NextDue(m: Method, i: nat, s: State, k: nat)
    requires WellFormed(m) && i < |m.code| && Visiting(m, i, s) && k < |Successors(m, i)|
    requires Reachable(m, Successors(m, i)[k])
    ensures Due(m, Successors(m, i)[k], After(m, i, s))
  {
    var t := Successors(m, i)[k];
    forall g: seq<State> | Closed(m, g)
      ensures AtMost(m.obj, After(m, i, s), g[t])
    {
      assert ClosedAt(m, g, i) && ClosedAt(m, g, t);
      NextAtMost(m, g, i, s, k);
    }
  }

  lemma NextAtMost(m: Method, g: seq<State>, i: nat, s: State, k: nat)
    requires WellFormed(m) && i < |m.code| == |g| && Visiting(m, i, s) && k < |Successors(m, i)|
    requires ClosedAt(m, g, i) && ClosedAt(m, g, Successors(m, i)[k]) && AtMost(m.obj, s, g[i])
    ensures AtMost(m.obj, After(m, i, s), g[Successors(m, i)[k]])
  {
    hide WellFormed, StateKnown, Shaped, Reachable, StackUp, RegistersAtMost, Due, ThrownWithin;
    LegalMethod(m);
    var r, q := m.step(i, s), m.step(i, g[i]);
    var and := g[i].andFlags + if m.code[i].InvokeInit? && q.initsThis then {0} else {};
    var mid := State(q.stack, q.regs, and, g[i].orFlags);
    AfterKnown(m, i, s, AndAfter(m, i, s), s.orFlags);
    AfterKnown(m, i, g[i], and, g[i].orFlags);
    assert AtMost(m.obj, After(m, i, s), mid);
    AtMostTransitive(m.obj, m.depth, After(m, i, s), mid, g[Successors(m, i)[k]]) by { assert KnownObject(m.obj); }
  }

  lemma AfterWelcome(m: Method, i: nat, s: State, k: nat)
    requires WellFormed(m) && i < |m.code| && Visiting(m, i, s) && k < |Successors(m, i)|
    ensures Welcome(m, Successors(m, i)[k], After(m, i, s))
  {
    hide AllKnown, MasksKnown, Reachable, HandledBy;
    assert StepKeeps(m, i, s) by { var r := m.step(i, s); }
    ReachableStep(m, i, Successors(m, i)[k]);
    NextDue(m, i, s, k);
    hide Due;
    assert FlagsKnown(AndAfter(m, i, s));
  }

  /** What an exception takes to a handler when the record now holds `cur`. */
  function ThrownNow(m: Method, i: nat, s: State, cur: State, h: Handler): State
    requires i < |m.code| && cur.Visited()
  {
    State(h.stack, cur.regs, AndAfter(m, i, s) * cur.andFlags, s.orFlags + cur.orFlags)
  }

  /** What is thrown is at most what closed states have at the handler. */
  lemma ThrownDue(m: Method, i: nat, s: State, cur: State, k: nat)
    requires WellFormed(m) && i < |m.code| && Visiting(m, i, s) && Visiting(m, i, cur)
    requires k < |m.handlers| && m.handlers[k].Protects(i) && Reachable(m, m.handlers[k].handler)
    ensures Due(m, m.handlers[k].handler, ThrownNow(m, i, s, cur, m.handlers[k]))
    ensures Due(m, m.handlers[k].handler, ThrownBefore(cur, m.handlers[k]))
    ensures m.code[i].InvokeInit? ==> Due(m, m.handlers[k].handler, ThrownAfter(m, i, s, m.handlers[k]))
  {
    hide WellFormed, StateKnown, Shaped, AtMost, NextWithin, MonotoneAt, ThrownWithin;
    LegalMethod(m);
    var h := m.handlers[k];
    forall g: seq<State> | Closed(m, g)
      ensures AtMost(m.obj, ThrownNow(m, i, s, cur, h), g[h.handler])
      ensures AtMost(m.obj, ThrownBefore(cur, h), g[h.handler])
      ensures m.code[i].InvokeInit? ==> AtMost(m.obj, ThrownAfter(m, i, s, h), g[h.handler])
    {
      assert ClosedAt(m, g, i) && ClosedAt(m, g, h.handler);
      ThrownNowAtMost(m, g, i, s, cur, k);
      ThrownAtMost(m, g, i, cur, cur.andFlags, cur.orFlags, k) by { FlagsAtMost(m, cur, g[i]); }
      if m.code[i].InvokeInit? {
        ThrownAfterAtMost(m, g, i, s, k);
      }
    }
  }

  lemma FlagsAtMost(m: Method, s: State, t: State)
    requires AtMost(m.obj, s, t)
    ensures t.andFlags <= s.andFlags && s.orFlags <= t.orFlags
  {}

  lemma ThrownNowAtMost(m: Method, g: seq<State>, i: nat, s: State, cur: State, k: nat)
    requires WellFormed(m) && i < |m.code| == |g| && Visiting(m, i, s) && Visiting(m, i, cur)
    requires k < |m.handlers| && m.handlers[k].Protects(i)
    requires ClosedAt(m, g, i) && ClosedAt(m, g, m.handlers[k].handler)
    requires AtMost(m.obj, s, g[i]) && AtMost(m.obj, cur, g[i])
    ensures AtMost(m.obj, ThrownNow(m, i, s, cur, m.handlers[k]), g[m.handlers[k].handler])
  {
    FlagsAtMost(m, s, g[i]);
    FlagsAtMost(m, cur, g[i]);
    VisitingVisited(m, i, s) by { LegalMethod(m); }
    hide WellFormed, Visiting, ClosedAt, AtMost;
    LegalMethod(m);
    hide Legal;
    ThrownAtMost(m, g, i, cur, AndAfter(m, i, s) * cur.andFlags, s.orFlags + cur.orFlags, k);
  }

  /** The registers of a state at most `g` there, with flags at most as many. */
  lemma ThrownAtMost(m: Method, g: seq<State>, i: nat, cur: State, and: set<nat>, or: set<nat>, k: nat)
    requires WellFormed(m) && i < |m.code| == |g| && Visiting(m, i, cur) && k < |m.handlers|
    requires m.handlers[k].Protects(i) && ClosedAt(m, g, i) && ClosedAt(m, g, m.handlers[k].handler)
    requires AtMost(m.obj, cur, g[i]) && g[i].andFlags <= and <= cur.andFlags && or <= g[i].orFlags
    ensures AtMost(m.obj, State(m.handlers[k].stack, cur.regs, and, or), g[m.handlers[k].handler])
  {
    hide WellFormed, Shaped, Reachable, RegistersAtMost, Due, NextWithin, AllKnown, MasksKnown, MonotoneAt, AllLeq;
    LegalMethod(m);
    var h := m.handlers[k];
    var mid := State(h.stack, g[i].regs, g[i].andFlags, g[i].orFlags);
    assert ThrownWithin(m, g, i, h);
    AfterKnown(m, i, g[i], g[i].andFlags, g[i].orFlags);
    AfterKnown(m, i, cur, and, {});
    HandlerStack(m, k);
    var x := State(h.stack, cur.regs, and, or);
    assert FlagsKnown(or);
    AtMostTransitive(m.obj, m.depth, x, mid, g[h.handler]);
  }

  lemma HandlerStack(m: Method, k: nat)
    requires WellFormed(m) && k < |m.handlers|
    ensures StackUp(m.obj, m.handlers[k].stack, m.handlers[k].stack)
  {
    hide AllAssignable;
    AllReflexive(m.obj, m.depth, m.handlers[k].stack.items);
  }

  lemma ThrownAfterAtMost(m: Method, g: seq<State>, i: nat, s: State, k: nat)
    requires WellFormed(m) && i < |m.code| == |g| && Visiting(m, i, s) && k < |m.handlers|
    requires m.handlers[k].Protects(i) && m.code[i].InvokeInit?
    requires ClosedAt(m, g, i) && ClosedAt(m, g, m.handlers[k].handler) && AtMost(m.obj, s, g[i])
    ensures AtMost(m.obj, ThrownAfter(m, i, s, m.handlers[k]), g[m.handlers[k].handler])
  {
    hide WellFormed, Shaped, Reachable, RegistersAtMost, Due, NextWithin, StateKnown, StackUp;
    LegalMethod(m);
    var h, q := m.handlers[k], m.step(i, g[i]);
    var more := if q.initsThis then {0} else {};
    var mid := State(h.stack, q.regs, g[i].andFlags + more, g[i].orFlags + if q.initsThis then {2} else {});
    assert ThrownWithin(m, g, i, h);
    AfterKnown(m, i, g[i], mid.andFlags, mid.orFlags);
    AfterKnown(m, i, s, ThrownAfter(m, i, s, h).andFlags, ThrownAfter(m, i, s, h).orFlags);
    HandlerStack(m, k);
    assert AtMost(m.obj, ThrownAfter(m, i, s, h), mid) by { var r := m.step(i, s); }
    AtMostTransitive(m.obj, m.depth, ThrownAfter(m, i, s, h), mid, g[h.handler]) by { assert KnownObject(m.obj); }
  }

  lemma ThrownWelcome(m: Method, i: nat, s: State, cur: State, k: nat)
    requires WellFormed(m) && i < |m.code| && Visiting(m, i, s) && Visiting(m, i, cur)
    requires k < |m.handlers| && m.handlers[k].Protects(i)
    ensures Welcome(m, m.handlers[k].handler, ThrownNow(m, i, s, cur, m.handlers[k]))
    ensures Welcome(m, m.handlers[k].handler, ThrownBefore(cur, m.handlers[k]))
    ensures m.code[i].InvokeInit? ==> Welcome(m, m.handlers[k].handler, ThrownAfter(m, i, s, m.handlers[k]))
  {
    hide AllKnown, MasksKnown, Reachable;
    assert StepKeeps(m, i, s) by { var r := m.step(i, s); }
    assert HandledBy(m, i, m.handlers[k].handler);
    ReachableStep(m, i, m.handlers[k].handler);
    ThrownDue(m, i, s, cur, k);
    hide Due;
  }

  /** The state of a record that has been visited. */
  lemma RecordVisiting(m: Method, d: seq<InstructionData>, i: nat)
    requires Legal(m) && Consistent(m, d) && i < |d| && d[i].state.Visited()
    ensures Visiting(m, i, d[i].state)
  {
    hide Legal, StateKnown, Shaped, Reachable, MarkedBy;
    assert RecordKnown(m, d, i);
  }

  lemma RaisedVisited(m: Method, d: seq<InstructionData>, e: seq<InstructionData>, i: nat)
    requires Legal(m) && i < |d| && d[i].state.Visited() && Raised(m.obj, d, e)
    ensures e[i].state.Visited()
    ensures !e[i].changed ==> !d[i].changed && e[i].state == d[i].state
  {
    hide AllLeq, Embeds;
    assert RecordRaised(m.obj, d[i], e[i]);
  }

  // ---------- merging ----------

  method Send(m: Method, idata: array<InstructionData>, t: nat, x: State)
    requires Legal(m) && Consistent(m, idata[..]) && t < idata.Length && Welcome(m, t, x)
    modifies idata
    ensures Advanced(m, old(idata[..]), idata[..])
    ensures Covers(m.obj, idata[t].state, x)
  {
    hide Consistent, Covers, StateKnown, Shaped, Reachable, SameHeight, SameShape, Absorb, Advanced;
    WelcomeShape(m, idata[..], t, x);
    AbsorbAdvances(m, idata[..], t, x);
    MergeIntoOneSuccessor(m.obj, m.depth, idata, t, x);
  }

  method MarkTarget(m: Method, idata: array<InstructionData>, i: nat, t: nat)
    requires Legal(m) && Consistent(m, idata[..]) && i < idata.Length && t < idata.Length
    requires idata[i].state.Visited() && Marks(m, i, t)
    modifies idata
    ensures Advanced(m, old(idata[..]), idata[..])
    ensures idata[t].isTarget
  {
    hide Legal, Consistent, Advanced, Marks;
    MarkAdvances(m, idata[..], i, t);
    idata[t] := idata[t].(isTarget := true);
  }

  /** Merges what an exception in `i` takes to a handler; `s` is the state that `i` was visited in. */
  method MergeIntoHandler(m: Method, idata: array<InstructionData>, i: nat, s: State, h: Handler, ghost k: nat)
    requires WellFormed(m) && Consistent(m, idata[..]) && i < idata.Length && Visiting(m, i, s)
    requires k < |m.handlers| && h == m.handlers[k] && h.Protects(i) && idata[i].state.Visited()
    requires idata.Length == |m.code|
    modifies idata
    ensures Advanced(m, old(idata[..]), idata[..]) && idata[h.handler].isTarget
    ensures old(idata[i].state) == s && !idata[i].changed ==> HandlerCovers(m, idata[..], i, s, h)
  {
    hide Consistent, Advanced, Covers, Welcome, Raised;
    ghost var d := idata[..];
    assert HandledBy(m, i, h.handler);
    MarkTarget(m, idata, i, h.handler);
    ghost var e := idata[..];
    AdvancedVisited(m, d, e, i);
    RecordVisiting(m, e, i);
    ThrownWelcome(m, i, s, idata[i].state, k);
    hide WellFormed, StateKnown, Shaped, Reachable;
    if !m.code[i].InvokeInit? {
      Send(m, idata, h.handler, ThrownNow(m, i, s, idata[i].state, h));
      ghost var f := idata[..];
      AdvancedVisited(m, e, f, i);
      AdvancedTransitive(m, d, e, f);
      AdvancedMarked(m, e, f, h.handler);
      if d[i].state == s && !idata[i].changed {
        assert ThrownNow(m, i, s, s, h) == State(h.stack, s.regs, AndAfter(m, i, s) * s.andFlags, s.orFlags);
        assert Thrown(m, i, s, h) == [ThrownNow(m, i, s, s, h)];
      }
    } else {
      Send(m, idata, h.handler, ThrownBefore(idata[i].state, h));
      ghost var f := idata[..];
      AdvancedVisited(m, e, f, i);
      AdvancedTransitive(m, d, e, f);
      Send(m, idata, h.handler, ThrownAfter(m, i, s, h));
      ghost var g := idata[..];
      AdvancedVisited(m, f, g, i);
      AdvancedTransitive(m, d, f, g);
      AdvancedMarked(m, e, f, h.handler);
      AdvancedMarked(m, f, g, h.handler);
      AdvancedCovers(m, f, g, h.handler, ThrownBefore(e[i].state, h));
    }
  }


  lemma AdvancedVisited(m: Method, d: seq<InstructionData>, e: seq<InstructionData>, i: nat)
    requires Legal(m) && i < |d| && d[i].state.Visited() && Advanced(m, d, e)
    ensures Consistent(m, e) && |e| == |d| && e[i].state.Visited()
    ensures !e[i].changed ==> !d[i].changed && e[i].state == d[i].state
  {
    hide Consistent, Raised;
    RaisedVisited(m, d, e, i) by { assert Raised(m.obj, d, e); }
    assert |e| == |d| by { assert Raised(m.obj, d, e); RaisedLength(m.obj, d, e); }
  }

  lemma AdvancedMarked(m: Method, d: seq<InstructionData>, e: seq<InstructionData>, t: nat)
    requires Legal(m) && t < |d| && Advanced(m, d, e) && d[t].isTarget
    ensures |e| == |d| && e[t].isTarget
  {
    hide Above, Legal, Consistent;
    assert RecordRaised(m.obj, d[t], e[t]);
  }

  lemma RaisedLength(obj: ClassClass, d: seq<InstructionData>, e: seq<InstructionData>)
    requires Raised(obj, d, e)
    ensures |d| == |e|
  {}

  lemma AdvancedCovers(m: Method, d: seq<InstructionData>, e: seq<InstructionData>, t: nat, x: State)
    requires Legal(m) && Consistent(m, d) && Advanced(m, d, e) && t < |d| && |d| == |e|
    requires Welcome(m, t, x) && Covers(m.obj, d[t].state, x)
    ensures Covers(m.obj, e[t].state, x)
  {
    hide Covers, Consistent, Raised, NoHeavier, StateKnown, Shaped, Reachable, Legal;
    RaisedCovers(m, d, e, t, x);
  }

  // ---------- all that follows one instruction ----------

  /** Instruction `i` is marked as changed again, or the first handlers have what it throws. */
  ghost predicate HandlersDone(m: Method, d: seq<InstructionData>, i: nat, s: State, count: nat)
    requires Legal(m) && i < |d| == |m.code| && count <= |m.handlers|
  {
    && (d[i].changed || (d[i].state == s && HandlersCover(m, d, i, s, count)))
    && forall k :: 0 <= k < count && m.handlers[k].Protects(i) ==> d[m.handlers[k].handler].isTarget
  }

  ghost predicate SuccessorsDone(m: Method, d: seq<InstructionData>, i: nat, s: State, count: nat)
    requires Legal(m) && i < |d| == |m.code| && count <= |Successors(m, i)|
  {
    forall k :: 0 <= k < count ==> Covers(m.obj, d[Successors(m, i)[k]].state, After(m, i, s))
  }

  lemma ThrownAreWelcome(m: Method, i: nat, s: State, k: nat, x: State)
    requires WellFormed(m) && i < |m.code| && Visiting(m, i, s) && k < |m.handlers| && m.handlers[k].Protects(i)
    requires x in Thrown(m, i, s, m.handlers[k])
    ensures Welcome(m, m.handlers[k].handler, x)
  {
    hide WellFormed, Visiting, Welcome;
    ThrownWelcome(m, i, s, s, k) by { LegalMethod(m); VisitingVisited(m, i, s); }
    assert AndAfter(m, i, s) * s.andFlags == s.andFlags;
    assert s.orFlags + s.orFlags == s.orFlags;
  }

  lemma VisitingVisited(m: Method, i: nat, s: State)
    requires Legal(m) && i < |m.code| && Visiting(m, i, s)
    ensures s.Visited()
  {}

  lemma AdvancedHandlers(m: Method, d: seq<InstructionData>, e: seq<InstructionData>, i: nat, s: State, count: nat)
    requires WellFormed(m) && Consistent(m, d) && Advanced(m, d, e) && i < |d| == |m.code| && count <= |m.handlers|
    requires Visiting(m, i, s) && HandlersCover(m, d, i, s, count) && |e| == |d|
    ensures HandlersCover(m, e, i, s, count)
  {
    hide Advanced, Consistent, Covers, Visiting, Welcome, Thrown;
    forall k, x | 0 <= k < count && m.handlers[k].Protects(i) && x in Thrown(m, i, s, m.handlers[k])
      ensures Covers(m.obj, e[m.handlers[k].handler].state, x)
    {
      assert HandlerCovers(m, d, i, s, m.handlers[k]);
      ThrownAreWelcome(m, i, s, k, x);
      AdvancedCovers(m, d, e, m.handlers[k].handler, x);
    }
  }

  method MergeIntoHandlers(m: Method, idata: array<InstructionData>, i: nat, s: State)
    requires WellFormed(m) && Consistent(m, idata[..]) && i < idata.Length == |m.code| && Visiting(m, i, s)
    requires idata[i].state == s && !idata[i].changed
    modifies idata
    ensures Advanced(m, old(idata[..]), idata[..])
    ensures HandlersDone(m, idata[..], i, s, |m.handlers|)
  {
    hide Consistent, Advanced, Visiting, WellFormed, HandlersCover, HandlerCovers;
    LegalMethod(m);
    AdvancedSelf(m, idata[..]);
    VisitingVisited(m, i, s);
    hide Legal;
    ghost var d := idata[..];
    NoHandlers(m, d, i, s);
    var k := 0;
    while k < |m.handlers|
      invariant k <= |m.handlers|
      invariant Advanced(m, d, idata[..]) && Consistent(m, idata[..]) && idata[i].state.Visited()
      invariant HandlersDone(m, idata[..], i, s, k)
    {
      ghost var e := idata[..];
      if m.handlers[k].Protects(i) {
        MergeIntoHandler(m, idata, i, s, m.handlers[k], k);
        AdvancedVisited(m, e, idata[..], i);
        AdvancedTransitive(m, d, e, idata[..]);
        HandlersStep(m, e, idata[..], i, s, k);
      } else {
        HandlersSkip(m, e, i, s, k);
      }
      k := k + 1;
    }
  }

  lemma LegalMethod(m: Method)
    requires WellFormed(m)
    ensures Legal(m)
  {}

  lemma NoHandlers(m: Method, d: seq<InstructionData>, i: nat, s: State)
    requires Legal(m) && i < |d| == |m.code| && d[i].state == s
    ensures HandlersDone(m, d, i, s, 0)
  {}

  lemma HandlersSkip(m: Method, d: seq<InstructionData>, i: nat, s: State, k: nat)
    requires Legal(m) && i < |d| == |m.code| && k < |m.handlers| && HandlersDone(m, d, i, s, k)
    requires !m.handlers[k].Protects(i)
    ensures HandlersDone(m, d, i, s, k + 1)
  {
    hide HandlerCovers;
  }

  lemma HandlersStep(m: Method, d: seq<InstructionData>, e: seq<InstructionData>, i: nat, s: State, k: nat)
    requires WellFormed(m) && Consistent(m, d) && Advanced(m, d, e) && i < |d| == |m.code| && |e| == |d|
    requires Visiting(m, i, s) && k < |m.handlers| && m.handlers[k].Protects(i) && d[i].state.Visited()
    requires HandlersDone(m, d, i, s, k) && e[m.handlers[k].handler].isTarget
    requires d[i].state == s && !e[i].changed ==> HandlerCovers(m, e, i, s, m.handlers[k])
    ensures HandlersDone(m, e, i, s, k + 1)
  {
    hide HandlerCovers, Advanced, Consistent, Visiting, WellFormed;
    LegalMethod(m);
    AdvancedVisited(m, d, e, i);
    if !e[i].changed {
      AdvancedHandlers(m, d, e, i, s, k);
    }
    forall q | 0 <= q < k && m.handlers[q].Protects(i)
      ensures e[m.handlers[q].handler].isTarget
    {
      AdvancedMarked(m, d, e, m.handlers[q].handler);
    }
  }

  lemma AdvancedHandlersDone(m: Method, d: seq<InstructionData>, e: seq<InstructionData>, i: nat, s: State, k: nat)
    requires WellFormed(m) && Consistent(m, d) && Advanced(m, d, e) && i < |d| == |m.code| && |e| == |d|
    requires Visiting(m, i, s) && k <= |m.handlers| && d[i].state.Visited() && HandlersDone(m, d, i, s, k)
    ensures HandlersDone(m, e, i, s, k)
  {
    hide HandlersCover, Advanced, Consistent, Visiting, WellFormed;
    LegalMethod(m);
    AdvancedVisited(m, d, e, i);
    if !e[i].changed {
      AdvancedHandlers(m, d, e, i, s, k);
    }
    forall q | 0 <= q < k && m.handlers[q].Protects(i)
      ensures e[m.handlers[q].handler].isTarget
    {
      AdvancedMarked(m, d, e, m.handlers[q].handler);
    }
  }

  method MarkTargets(m: Method, idata: array<InstructionData>, i: nat)
    requires WellFormed(m) && Consistent(m, idata[..]) && i < idata.Length == |m.code|
    requires idata[i].state.Visited()
    modifies idata
    ensures Advanced(m, old(idata[..]), idata[..])
    ensures forall k :: 0 <= k < |Targets(m, i)| ==> Targets(m, i)[k] < idata.Length && idata[Targets(m, i)[k]].isTarget
    ensures idata[i].state == old(idata[i].state) && idata[i].changed == old(idata[i].changed)
  {
    hide Consistent, Advanced, Targets;
    assert Legal(m);
    hide WellFormed;
    ghost var d := idata[..];
    AdvancedSelf(m, d);
    var targets, k := Targets(m, i), 0;
    while k < |targets|
      invariant k <= |targets|
      invariant Advanced(m, d, idata[..]) && Consistent(m, idata[..])
      invariant idata[i].state == old(idata[i].state) && idata[i].changed == old(idata[i].changed)
      invariant forall q :: 0 <= q < k ==> targets[q] < idata.Length && idata[targets[q]].isTarget
    {
      ghost var e := idata[..];
      MarkAdvances(m, e, i, targets[k]);
      idata[targets[k]] := idata[targets[k]].(isTarget := true);
      assert idata[..] == e[targets[k] := e[targets[k]].(isTarget := true)];
      AdvancedVisited(m, e, idata[..], i);
      AdvancedTransitive(m, d, e, idata[..]);
      k := k + 1;
    }
  }

  method MergeIntoFollowing(m: Method, idata: array<InstructionData>, i: nat, s: State)
    requires WellFormed(m) && Consistent(m, idata[..]) && i < idata.Length == |m.code| && Visiting(m, i, s)
    modifies idata
    ensures Advanced(m, old(idata[..]), idata[..])
    ensures SuccessorsDone(m, idata[..], i, s, |Successors(m, i)|)
  {
    hide Consistent, Advanced, Visiting, WellFormed, Covers, Successors, Welcome;
    LegalMethod(m);
    ghost var d := idata[..];
    AdvancedSelf(m, d);
    var successors, k := Successors(m, i), 0;
    while k < |successors|
      invariant k <= |successors|
      invariant Advanced(m, d, idata[..]) && Consistent(m, idata[..])
      invariant SuccessorsDone(m, idata[..], i, s, k)
    {
      ghost var e := idata[..];
      AfterWelcome(m, i, s, k);
      Send(m, idata, successors[k], After(m, i, s));
      AdvancedConsistent(m, e, idata[..]);
      AdvancedTransitive(m, d, e, idata[..]);
      forall q | 0 <= q < k
        ensures Covers(m.obj, idata[successors[q]].state, After(m, i, s))
      {
        AfterWelcome(m, i, s, q);
        AdvancedCovers(m, e, idata[..], successors[q], After(m, i, s));
      }
      k := k + 1;
    }
  }

  lemma AdvancedConsistent(m: Method, d: seq<InstructionData>, e: seq<InstructionData>)
    requires Legal(m) && Advanced(m, d, e)
    ensures Consistent(m, e) && |e| == |d|
  {
    hide Consistent;
    RaisedLength(m.obj, d, e);
  }

  // ---------- one visit ----------

  /** The entry state has been taken into account. */
  ghost predicate Entered(m: Method, d: seq<InstructionData>)
    requires 0 < |d|
  {
    Covers(m.obj, d[0].state, EntryState(m))
  }

  /** All but instruction `i` are settled. */
  ghost predicate OthersSettled(m: Method, d: seq<InstructionData>, i: nat)
    requires Legal(m) && |d| == |m.code|
  {
    forall j: nat :: j < |d| && j != i && d[j].state.Visited() && !d[j].changed ==>
           FlowsTo(m, d, j) && TargetsMarked(m, d, j)
  }

  lemma Cleared(m: Method, d: seq<InstructionData>, i: nat)
    requires WellFormed(m) && Consistent(m, d) && Settled(m, d) && i < |d| && d[i].changed && Entered(m, d)
    ensures var e := d[i := d[i].(changed := false)];
            Consistent(m, e) && OthersSettled(m, e, i) && Entered(m, e)
  {
    hide WellFormed, StateKnown, Shaped, Reachable, Covers, Thrown;
    var e := d[i := d[i].(changed := false)];
    LegalMethod(m);
    assert RecordKnown(m, d, i);
    UpdateConsistent(m, d, i, e[i]);
    forall j: nat | j < |d| && j != i && e[j].state.Visited() && !e[j].changed
      ensures FlowsTo(m, e, j) && TargetsMarked(m, e, j)
    {
      SameStatesFlow(m, d, e, j);
    }
  }

  lemma SameStatesFlow(m: Method, d: seq<InstructionData>, e: seq<InstructionData>, j: nat)
    requires Legal(m) && j < |d| == |e| == |m.code| && FlowsTo(m, d, j) && TargetsMarked(m, d, j)
    requires forall k :: 0 <= k < |d| ==> e[k].state == d[k].state && e[k].isTarget == d[k].isTarget
    ensures FlowsTo(m, e, j) && TargetsMarked(m, e, j)
  {
    hide Covers, Thrown, Marks, Successors;
    forall k | 0 <= k < |m.handlers| && m.handlers[k].Protects(j)
      ensures HandlerCovers(m, e, j, e[j].state, m.handlers[k])
    {
      assert HandlerCovers(m, d, j, d[j].state, m.handlers[k]);
    }
  }

  /** A settled instruction that is not marked as changed stays settled. */
  lemma AdvancedFlows(m: Method, d: seq<InstructionData>, e: seq<InstructionData>, j: nat)
    requires WellFormed(m) && Consistent(m, d) && Advanced(m, d, e) && j < |d| == |m.code| && |e| == |d|
    requires d[j].state.Visited() && !e[j].changed && FlowsTo(m, d, j) && TargetsMarked(m, d, j)
    ensures FlowsTo(m, e, j) && TargetsMarked(m, e, j)
  {
    hide WellFormed, Consistent, Advanced, Covers, HandlersCover, Successors, Marks, Visiting, Welcome;
    LegalMethod(m);
    AdvancedVisited(m, d, e, j);
    RecordVisiting(m, d, j);
    AdvancedHandlers(m, d, e, j, d[j].state, |m.handlers|);
    forall k | 0 <= k < |Successors(m, j)|
      ensures Covers(m.obj, e[Successors(m, j)[k]].state, After(m, j, e[j].state))
    {
      AfterWelcome(m, j, d[j].state, k);
      AdvancedCovers(m, d, e, Successors(m, j)[k], After(m, j, d[j].state));
    }
    forall t: nat | t < |e| && Marks(m, j, t)
      ensures e[t].isTarget
    {
      AdvancedMarked(m, d, e, t);
    }
  }

  /** The records have become lighter, or equally heavy with fewer left to visit. */
  predicate Smaller(depth: nat, d: seq<InstructionData>, e: seq<InstructionData>) {
    || Lighter(depth, d, e)
    || (Total(depth, Unseen, e) == Total(depth, Unseen, d) && Total(depth, Heavy, e) == Total(depth, Heavy, d)
        && Total(depth, Queued, e) < Total(depth, Queued, d))
  }

  lemma VisitSmaller(depth: nat, d: seq<InstructionData>, i: nat, e: seq<InstructionData>)
    requires i < |d| && d[i].changed && NoHeavier(depth, d[i := d[i].(changed := false)], e)
    ensures Smaller(depth, d, e)
  {
    hide Total;
    var c := d[i := d[i].(changed := false)];
    TotalUpdate(depth, Unseen, d, i, c[i]);
    TotalUpdate(depth, Heavy, d, i, c[i]);
    TotalUpdate(depth, Queued, d, i, c[i]);
    if Same(c, e) {
      TotalSame(depth, Unseen, c, e);
      TotalSame(depth, Heavy, c, e);
      TotalSame(depth, Queued, c, e);
    }
  }

  method MergeIntoSuccessors(m: Method, idata: array<InstructionData>, i: nat, s: State)
    requires WellFormed(m) && Consistent(m, idata[..]) && i < idata.Length == |m.code| && Visiting(m, i, s)
    requires idata[i].state == s && !idata[i].changed
    modifies idata
    ensures Advanced(m, old(idata[..]), idata[..])
    ensures !idata[i].changed ==>
              idata[i].state == s && FlowsTo(m, idata[..], i) && TargetsMarked(m, idata[..], i)
  {
    hide WellFormed, Consistent, Advanced, Visiting, HandlersCover, HandlersDone, Covers, Successors, Targets;
    LegalMethod(m);
    VisitingVisited(m, i, s);
    hide Legal;
    ghost var d := idata[..];
    MarkTargets(m, idata, i);
    ghost var e := idata[..];
    AdvancedConsistent(m, d, e);
    MergeIntoHandlers(m, idata, i, s);
    ghost var f := idata[..];
    AdvancedConsistent(m, e, f);
    AdvancedVisited(m, e, f, i);
    AdvancedTransitive(m, d, e, f);
    MergeIntoFollowing(m, idata, i, s);
    ghost var g := idata[..];
    AdvancedConsistent(m, f, g);
    AdvancedTransitive(m, d, f, g);
    AdvancedHandlersDone(m, f, g, i, s, |m.handlers|);
    AllDone(m, e, f, g, i, s);
  }

  lemma AllDone(m: Method, e: seq<InstructionData>, f: seq<InstructionData>, g: seq<InstructionData>, i: nat, s: State)
    requires Legal(m) && i < |e| == |f| == |g| == |m.code| && Advanced(m, e, f) && Advanced(m, f, g)
    requires HandlersDone(m, g, i, s, |m.handlers|) && SuccessorsDone(m, g, i, s, |Successors(m, i)|)
    requires forall k :: 0 <= k < |Targets(m, i)| ==> Targets(m, i)[k] < |e| && e[Targets(m, i)[k]].isTarget
    ensures !g[i].changed ==> g[i].state == s && FlowsTo(m, g, i) && TargetsMarked(m, g, i)
  {
    hide HandlersCover, Covers, Advanced, Targets, Successors;
    forall t: nat | t < |g| && Marks(m, i, t)
      ensures g[t].isTarget
    {
      if t in Targets(m, i) {
        AdvancedMarked(m, e, f, t);
        AdvancedMarked(m, f, g, t);
      }
    }
  }

  /** Visits one changed instruction: a sound state stays sound, and the measure drops. */
  method Visit(m: Method, idata: array<InstructionData>, i: nat)
    requires WellFormed(m) && Consistent(m, idata[..]) && Settled(m, idata[..]) && Entered(m, idata[..])
    requires i < idata.Length == |m.code| && idata[i].changed
    modifies idata
    ensures Consistent(m, idata[..]) && Settled(m, idata[..]) && Entered(m, idata[..])
    ensures Smaller(m.depth, old(idata[..]), idata[..])
  {
    hide WellFormed, Consistent, Advanced, Visiting, FlowsTo, TargetsMarked, Covers, Settled, OthersSettled, Smaller;
    hide NoHeavier;
    hide Entered, RecordKnown;
    LegalMethod(m);
    ghost var d := idata[..];
    ChangedVisited(m, d, i);
    Cleared(m, d, i);
    idata[i] := idata[i].(changed := false);
    ghost var c := idata[..];
    assert c == d[i := d[i].(changed := false)];
    RecordVisiting(m, c, i);
    MergeIntoSuccessors(m, idata, i, idata[i].state);
    VisitDone(m, d, c, idata[..], i);
  }

  lemma ChangedVisited(m: Method, d: seq<InstructionData>, i: nat)
    requires Legal(m) && Consistent(m, d) && i < |d| && d[i].changed
    ensures d[i].state.Visited()
  {
    assert RecordKnown(m, d, i);
  }

  lemma VisitDone(m: Method, d: seq<InstructionData>, c: seq<InstructionData>, e: seq<InstructionData>, i: nat)
    requires WellFormed(m) && i < |d| && d[i].changed && c == d[i := d[i].(changed := false)]
    requires Consistent(m, c) && Advanced(m, c, e) && OthersSettled(m, c, i) && Entered(m, c) && |e| == |d| == |m.code|
    requires !e[i].changed ==> FlowsTo(m, e, i) && TargetsMarked(m, e, i)
    ensures Consistent(m, e) && Settled(m, e) && Entered(m, e) && Smaller(m.depth, d, e)
  {
    hide WellFormed, Consistent, Raised, FlowsTo, TargetsMarked, Covers, NoHeavier, Smaller;
    LegalMethod(m);
    VisitSmaller(m.depth, d, i, e);
    EntryWelcome(m);
    AdvancedCovers(m, c, e, 0, EntryState(m));
    forall j: nat | j < |e| && j != i && e[j].state.Visited() && !e[j].changed
      ensures FlowsTo(m, e, j) && TargetsMarked(m, e, j)
    {
      if c[j].state.Visited() {
        AdvancedVisited(m, c, e, j);
        AdvancedFlows(m, c, e, j);
      } else {
        NewlyVisited(m, c, e, j);
      }
    }
  }

  lemma NewlyVisited(m: Method, c: seq<InstructionData>, e: seq<InstructionData>, j: nat)
    requires Legal(m) && Advanced(m, c, e) && j < |c| == |e| && !c[j].state.Visited() && e[j].state.Visited()
    ensures e[j].changed
  {
    assert RecordRaised(m.obj, c[j], e[j]);
  }

  lemma EntryWelcome(m: Method)
    requires WellFormed(m)
    ensures Legal(m) && Welcome(m, 0, EntryState(m))
  {
    hide AllKnown, Reachable;
    assert AllKnown(m.obj, m.depth, []) by { NoneKnown(m.obj, m.depth); }
    ReachableEntry(m);
  }

  lemma NoneKnown(obj: ClassClass, depth: nat)
    ensures AllKnown(obj, depth, [])
  {}

  // ---------- the whole analysis ----------

  /** Sets up the records, with only the first instruction to be looked at. */
  method InitializeDataflow(m: Method, idata: array<InstructionData>)
    requires WellFormed(m) && idata.Length == |m.code|
    modifies idata
    ensures Consistent(m, idata[..]) && Settled(m, idata[..]) && Entered(m, idata[..])
  {
    hide FlowsTo, TargetsMarked, Covers, Reachable;
    var nothing := State(UnknownStack, UnknownRegisters, Bits(FLAG_BITS), {});
    var i := 0;
    while i < idata.Length
      invariant i <= idata.Length
      invariant forall k :: 0 <= k < i ==> idata[k] == InstructionData(nothing, false, false)
    {
      idata[i] := InstructionData(nothing, false, false);
      i := i + 1;
    }
    idata[0] := InstructionData(EntryState(m), true, false);
    EntryWelcome(m);
    NothingKnown(m.obj, m.depth, nothing);
    EntryCovered(m);
    hide WellFormed, StateKnown, Legal, Due;
    forall k: nat | k < idata.Length
      ensures RecordKnown(m, idata[..], k)
    {
      NothingDue(m, k, nothing);
    }
  }

  /** A record of which nothing is known yet knows at least what any closed states do. */
  lemma NothingDue(m: Method, i: nat, s: State)
    requires Legal(m) && i < |m.code| && s == State(UnknownStack, UnknownRegisters, Bits(FLAG_BITS), {})
    ensures Due(m, i, s)
  {
    hide Reachable, AllKnown, MonotoneAt, NextWithin, ThrownWithin, Shaped;
    forall g: seq<State> | Closed(m, g) && Reachable(m, i)
      ensures AtMost(m.obj, s, g[i])
    {
      assert ClosedAt(m, g, i);
      FlagsInBits(g[i].andFlags);
    }
  }

  lemma NothingKnown(obj: ClassClass, depth: nat, s: State)
    requires s == State(UnknownStack, UnknownRegisters, Bits(FLAG_BITS), {})
    ensures StateKnown(obj, depth, s)
  {}

  lemma EntryCovered(m: Method)
    requires WellFormed(m)
    ensures Covers(m.obj, EntryState(m), EntryState(m))
  {
    hide WellFormed, AllAssignable;
    AllReflexive(m.obj, m.depth, m.arguments);
    AllReflexive(m.obj, m.depth, []);
  }

  /** What the finished analysis says about every instruction. */
  ghost predicate Fixpoint(m: Method, d: seq<InstructionData>)
    requires Legal(m) && |d| == |m.code|
  {
    && Entered(m, d)
    && (forall i: nat :: i < |d| ==> (REACHED in d[i].state.orFlags <==> Reachable(m, i)))
    && (forall i: nat :: i < |d| && Reachable(m, i) ==> FlowsTo(m, d, i))
    && (forall t: nat :: t < |d| ==> (d[t].isTarget <==> exists i: nat :: i < |d| && Reachable(m, i) && Marks(m, i, t)))
  }

  /** No closed states know more than these records. */
  ghost predicate Least(m: Method, d: seq<InstructionData>)
    requires Legal(m) && |d| == |m.code|
  {
    forall g: seq<State> :: Closed(m, g) ==>
      forall i: nat :: i < |d| && Reachable(m, i) ==> AtMost(m.obj, d[i].state, g[i])
  }

  lemma ConsistentIsLeast(m: Method, d: seq<InstructionData>)
    requires Legal(m) && Consistent(m, d)
    ensures Least(m, d)
  {
    hide Reachable, StateKnown, Shaped, MarkedBy, AtMost, Closed;
    forall g: seq<State>, i: nat | Closed(m, g) && i < |d| && Reachable(m, i)
      ensures |g| == |m.code| && AtMost(m.obj, d[i].state, g[i])
    {
      assert |g| == |m.code| by { ClosedLength(m, g); }
      assert RecordKnown(m, d, i);
    }
  }

  lemma ClosedLength(m: Method, g: seq<State>)
    requires Legal(m) && Closed(m, g)
    ensures |g| == |m.code|
  {}

  method RunDataflow(m: Method, idata: array<InstructionData>)
    requires WellFormed(m) && idata.Length == |m.code|
    requires Consistent(m, idata[..]) && Settled(m, idata[..]) && Entered(m, idata[..])
    modifies idata
    ensures Consistent(m, idata[..]) && Fixpoint(m, idata[..]) && Least(m, idata[..])
  {
    hide WellFormed, Consistent, Settled, Entered, Fixpoint, Total, Lighter, Least;
    LegalMethod(m);
    hide Legal;
    var workToDo := true;
    while workToDo
      invariant Consistent(m, idata[..]) && Settled(m, idata[..]) && Entered(m, idata[..])
      invariant !workToDo ==> forall k :: 0 <= k < idata.Length ==> !idata[k].changed
      decreases Total(m.depth, Unseen, idata[..]), Total(m.depth, Heavy, idata[..]),
                Total(m.depth, Queued, idata[..]), if workToDo then 1 else 0
    {
      workToDo := false;
      ghost var d := idata[..];
      var inumber := 0;
      while inumber < idata.Length
        invariant inumber <= idata.Length
        invariant Consistent(m, idata[..]) && Settled(m, idata[..]) && Entered(m, idata[..])
        invariant if workToDo then Smaller(m.depth, d, idata[..]) else idata[..] == d
        invariant !workToDo ==> forall k :: 0 <= k < inumber ==> !idata[k].changed
      {
        if idata[inumber].changed {
          ghost var c := idata[..];
          workToDo := true;
          Visit(m, idata, inumber);
          SmallerTransitive(m.depth, d, c, idata[..]);
        }
        inumber := inumber + 1;
      }
      SmallerTotals(m.depth, d, idata[..]);
    }
    FinishedIsFixpoint(m, idata[..]);
    ConsistentIsLeast(m, idata[..]);
  }

  lemma SmallerTransitive(depth: nat, d: seq<InstructionData>, c: seq<InstructionData>, e: seq<InstructionData>)
    requires c == d || Smaller(depth, d, c)
    requires Smaller(depth, c, e)
    ensures Smaller(depth, d, e)
  {
    hide Total;
  }

  lemma SmallerTotals(depth: nat, d: seq<InstructionData>, e: seq<InstructionData>)
    ensures Smaller(depth, d, e) <==>
            || Total(depth, Unseen, e) < Total(depth, Unseen, d)
            || (Total(depth, Unseen, e) == Total(depth, Unseen, d) && Total(depth, Heavy, e) < Total(depth, Heavy, d))
            || (Total(depth, Unseen, e) == Total(depth, Unseen, d) && Total(depth, Heavy, e) == Total(depth, Heavy, d)
                && Total(depth, Queued, e) < Total(depth, Queued, d))
  {
    hide Total;
  }

  /** Every instruction on a path is visited once nothing is left to do. */
  lemma {:induction false} PathVisited(m: Method, d: seq<InstructionData>, p: seq<nat>)
    requires Legal(m) && Consistent(m, d) && Settled(m, d) && Entered(m, d) && |d| == |m.code|
    requires forall k :: 0 <= k < |d| ==> !d[k].changed
    requires Path(m, p)
    ensures d[p[|p| - 1]].state.Visited()
    decreases |p|
  {
    hide Covers, Legal, Edge, Settled, Consistent;
    if |p| == 1 {
      CoversVisited(m.obj, d[0].state, EntryState(m));
    } else {
      var q := p[..|p| - 1];
      PathVisited(m, d, q);
      EdgeVisited(m, d, q[|q| - 1], p[|p| - 1]);
    }
  }

  lemma CoversVisited(obj: ClassClass, s: State, x: State)
    requires Covers(obj, s, x)
    ensures s.Visited()
  {}

  lemma EdgeVisited(m: Method, d: seq<InstructionData>, i: nat, t: nat)
    requires Legal(m) && i < |d| == |m.code| && t < |d| && d[i].state.Visited() && !d[i].changed && Settled(m, d)
    requires Edge(m, i, t)
    ensures d[t].state.Visited()
  {
    hide Covers, Legal, Successors;
    assert FlowsTo(m, d, i);
    if t in Successors(m, i) {
      var k :| 0 <= k < |Successors(m, i)| && Successors(m, i)[k] == t;
      CoversVisited(m.obj, d[t].state, After(m, i, d[i].state));
    } else {
      var k :| 0 <= k < |m.handlers| && m.handlers[k].Protects(i) && m.handlers[k].handler == t;
      assert HandlerCovers(m, d, i, d[i].state, m.handlers[k]);
      CoversVisited(m.obj, d[t].state, Thrown(m, i, d[i].state, m.handlers[k])[0]);
    }
  }

  lemma FinishedIsFixpoint(m: Method, d: seq<InstructionData>)
    requires Legal(m) && Consistent(m, d) && Settled(m, d) && Entered(m, d) && |d| == |m.code|
    requires forall k :: 0 <= k < |d| ==> !d[k].changed
    ensures Fixpoint(m, d)
  {
    hide Legal, Edge, StateKnown, Shaped, FlowsTo, Entered, Marks;
    forall i: nat | i < |d|
      ensures d[i].state.Visited() <==> Reachable(m, i)
      ensures d[i].state.Visited() <==> REACHED in d[i].state.orFlags
    {
      assert RecordKnown(m, d, i);
      if Reachable(m, i) {
        var p: seq<nat> :| Path(m, p) && p[|p| - 1] == i;
        PathVisited(m, d, p);
      }
    }
    forall t: nat | t < |d|
      ensures d[t].isTarget <==> exists i: nat :: i < |d| && Reachable(m, i) && Marks(m, i, t)
    {
      assert RecordKnown(m, d, t);
    }
  }

  /** The whole analysis of a method. */
  method Analyse(m: Method, idata: array<InstructionData>)
    requires WellFormed(m) && idata.Length == |m.code|
    modifies idata
    ensures Consistent(m, idata[..]) && Fixpoint(m, idata[..]) && Least(m, idata[..])
  {
    hide *;
    InitializeDataflow(m, idata);
    RunDataflow(m, idata);
  }
}
