/** What one merge does to all the records: it raises them, keeps them consistent, and makes
    them lighter unless it changes nothing. */
module FlowProgress {
  import opened ClassTree
  import opened TypeMerge
  import opened MergeStates
  import opened StateRank
  import opened MergeInto
  import opened MergeLeast
  import opened Flow

  // ---------- the termination measure ----------

  datatype Kind = Unseen | Heavy | Queued

  function Cost(depth: nat, kind: Kind, d: InstructionData): nat {
    match kind
    case Unseen => if d.state.Visited() then 0 else 1
    case Heavy => if d.state.Visited() then Weight(depth, d.state) else 0
    case Queued => if d.changed then 1 else 0
  }

  function Total(depth: nat, kind: Kind, d: seq<InstructionData>): nat {
    if d == [] then 0 else Total(depth, kind, d[..|d| - 1]) + Cost(depth, kind, d[|d| - 1])
  }

  lemma {:induction false} TotalUpdate(depth: nat, kind: Kind, d: seq<InstructionData>, t: nat, x: InstructionData)
    requires t < |d|
    ensures Total(depth, kind, d[t := x]) + Cost(depth, kind, d[t]) == Total(depth, kind, d) + Cost(depth, kind, x)
    decreases |d|
  {
    hide Cost;
    var k := |d| - 1;
    if t < k {
      TotalUpdate(depth, kind, d[..k], t, x);
      assert d[t := x][..k] == d[..k][t := x];
    } else {
      assert d[t := x][..k] == d[..k];
    }
  }

  lemma {:induction false} TotalSame(depth: nat, kind: Kind, d: seq<InstructionData>, e: seq<InstructionData>)
    requires Same(d, e)
    ensures Total(depth, kind, e) == Total(depth, kind, d)
    decreases |d|
  {
    if d != [] {
      TotalSame(depth, kind, d[..|d| - 1], e[..|e| - 1]);
    }
  }

  predicate Same(d: seq<InstructionData>, e: seq<InstructionData>) {
    |d| == |e| && forall k :: 0 <= k < |d| ==> d[k].state == e[k].state && d[k].changed == e[k].changed
  }

  predicate Lighter(depth: nat, d: seq<InstructionData>, e: seq<InstructionData>) {
    || Total(depth, Unseen, e) < Total(depth, Unseen, d)
    || (Total(depth, Unseen, e) == Total(depth, Unseen, d) && Total(depth, Heavy, e) < Total(depth, Heavy, d))
  }

  predicate NoHeavier(depth: nat, d: seq<InstructionData>, e: seq<InstructionData>) {
    Same(d, e) || Lighter(depth, d, e)
  }

  lemma NoHeavierTransitive(depth: nat, d: seq<InstructionData>, e: seq<InstructionData>, f: seq<InstructionData>)
    requires NoHeavier(depth, d, e) && NoHeavier(depth, e, f)
    ensures NoHeavier(depth, d, f)
  {
    hide Total;
    if Same(d, e) {
      TotalSame(depth, Unseen, d, e);
      TotalSame(depth, Heavy, d, e);
    }
    if Same(e, f) {
      TotalSame(depth, Unseen, e, f);
      TotalSame(depth, Heavy, e, f);
    }
  }

  // ---------- raising records ----------

  ghost predicate RecordRaised(obj: ClassClass, d: InstructionData, e: InstructionData) {
    && Above(obj, d.state, e.state)
    && (e.changed || e.state == d.state)
    && (d.changed ==> e.changed) && (d.isTarget ==> e.isTarget)
  }

  ghost predicate Raised(obj: ClassClass, d: seq<InstructionData>, e: seq<InstructionData>) {
    |d| == |e| && forall k :: 0 <= k < |d| ==> RecordRaised(obj, d[k], e[k])
  }

  /** One or more merges turn `d` into `e`. */
  ghost predicate Advanced(m: Method, d: seq<InstructionData>, e: seq<InstructionData>)
    requires Legal(m)
  {
    Consistent(m, e) && Raised(m.obj, d, e) && NoHeavier(m.depth, d, e)
  }

  lemma AdvancedSelf(m: Method, d: seq<InstructionData>)
    requires Legal(m) && Consistent(m, d)
    ensures Advanced(m, d, d)
  {
    hide Consistent, Above, Legal;
    forall k | 0 <= k < |d|
      ensures RecordRaised(m.obj, d[k], d[k])
    {
      AboveReflexive(m.obj, d[k].state);
    }
  }

  lemma AdvancedTransitive(m: Method, d: seq<InstructionData>, e: seq<InstructionData>, f: seq<InstructionData>)
    requires Legal(m) && Consistent(m, d) && Advanced(m, d, e) && Advanced(m, e, f)
    ensures Advanced(m, d, f)
  {
    hide Above, StateKnown, Reachable, Shaped, MarkedBy, NoHeavier;
    NoHeavierTransitive(m.depth, d, e, f);
    forall k | 0 <= k < |d|
      ensures RecordRaised(m.obj, d[k], f[k])
    {
      assert RecordKnown(m, d, k) && RecordKnown(m, e, k) && RecordKnown(m, f, k);
      assert RecordRaised(m.obj, d[k], e[k]) && RecordRaised(m.obj, e[k], f[k]);
      RecordRaisedTransitive(m, d[k], e[k], f[k]);
    }
  }

  lemma RecordRaisedTransitive(m: Method, d: InstructionData, e: InstructionData, f: InstructionData)
    requires KnownObject(m.obj)
    requires StateKnown(m.obj, m.depth, d.state) && StateKnown(m.obj, m.depth, e.state)
             && StateKnown(m.obj, m.depth, f.state)
    requires RecordRaised(m.obj, d, e) && RecordRaised(m.obj, e, f)
    ensures RecordRaised(m.obj, d, f)
  {
    hide Above, StateKnown, KnownObject;
    AboveTransitive(m.obj, m.depth, d.state, e.state, f.state);
  }

  // ---------- one merge ----------

  /** A state that may be merged into instruction `t`. */
  ghost predicate Welcome(m: Method, t: nat, x: State)
    requires Legal(m) && t < |m.code|
  {
    && StateKnown(m.obj, m.depth, x) && x.Visited() && Shaped(m, t, x.stack)
    && REACHED in x.orFlags && Reachable(m, t) && Due(m, t, x)
  }

  lemma WelcomeShape(m: Method, d: seq<InstructionData>, t: nat, x: State)
    requires Legal(m) && Consistent(m, d) && t < |d| && Welcome(m, t, x)
    ensures SameShape(d[t].state, x) && SameHeight(d[t].state.stack, x.stack) && StateKnown(m.obj, m.depth, d[t].state)
  {
    hide Legal, Reachable, StateKnown;
    assert RecordKnown(m, d, t);
  }

  lemma AbsorbRecord(m: Method, d: seq<InstructionData>, t: nat, x: State)
    requires Legal(m) && Consistent(m, d) && t < |d| && Welcome(m, t, x) && SameHeight(d[t].state.stack, x.stack)
    ensures var r := Absorb(m.obj, d[t], x);
            RecordRaised(m.obj, d[t], r) && Covers(m.obj, r.state, x) && StateKnown(m.obj, m.depth, r.state)
            && Shaped(m, t, r.state.stack) && REACHED in r.state.orFlags && r.isTarget == d[t].isTarget
            && Due(m, t, r.state)
  {
    hide Due, Reachable, MarkedBy, AllKnown, MergedRegs, AllAssignable, Embeds, AllLeq, MasksKnown;
    assert RecordKnown(m, d, t);
    WelcomeShape(m, d, t, x);
    MergedUp(m.obj, m.depth, d[t].state, x);
    MergedDue(m, t, d[t].state, x);
  }

  /** Merging takes away no more than closed states do. */
  lemma MergedDue(m: Method, t: nat, cur: State, inc: State)
    requires Legal(m) && t < |m.code| && StateKnown(m.obj, m.depth, cur) && StateKnown(m.obj, m.depth, inc)
    requires inc.Visited() && SameShape(cur, inc) && SameHeight(cur.stack, inc.stack)
    requires Due(m, t, cur) && Due(m, t, inc)
    ensures Due(m, t, Merged(m.obj, cur, inc))
  {
    hide Reachable, StateKnown, AtMost, Merged, Shaped, MonotoneAt, NextWithin, ThrownWithin;
    if Reachable(m, t) {
      forall g: seq<State> | Closed(m, g)
        ensures AtMost(m.obj, Merged(m.obj, cur, inc), g[t])
      {
        assert ClosedAt(m, g, t);
        MergedIsLeast(m.obj, m.depth, cur, inc, g[t]);
      }
    }
  }

  lemma AbsorbLighter(m: Method, d: seq<InstructionData>, t: nat, r: InstructionData)
    requires Legal(m) && Consistent(m, d) && t < |d| && RecordRaised(m.obj, d[t], r)
    requires StateKnown(m.obj, m.depth, r.state) && r.state.Visited()
    requires d[t].changed == r.changed || d[t].state != r.state
    ensures NoHeavier(m.depth, d, d[t := r])
  {
    hide Above, StateKnown, Weight, Total, Shaped, MarkedBy, Reachable;
    assert RecordKnown(m, d, t);
    TotalUpdate(m.depth, Unseen, d, t, r);
    TotalUpdate(m.depth, Heavy, d, t, r);
    if d[t].state.Visited() {
      WeightUp(m.obj, m.depth, d[t].state, r.state);
    }
  }

  lemma UpdateConsistent(m: Method, d: seq<InstructionData>, t: nat, r: InstructionData)
    requires Legal(m) && Consistent(m, d) && t < |d|
    requires StateKnown(m.obj, m.depth, r.state) && Shaped(m, t, r.state.stack)
    requires r.state.Visited() <==> REACHED in r.state.orFlags
    requires d[t].state.Visited() ==> r.state.Visited()
    requires r.state.Visited() ==> Reachable(m, t)
    requires r.changed ==> r.state.Visited()
    requires r.isTarget ==> MarkedBy(m, d, t)
    requires Due(m, t, r.state)
    ensures Consistent(m, d[t := r])
  {
    hide Due, Legal, StateKnown, Shaped, Reachable, Marks;
    var e := d[t := r];
    forall k: nat | k < |e|
      ensures RecordKnown(m, e, k)
    {
      assert RecordKnown(m, d, k);
      if e[k].isTarget {
        assert MarkedBy(m, d, k);
        var i: nat :| i < |d| && d[i].state.Visited() && Marks(m, i, k);
        assert e[i].state.Visited();
      }
    }
  }

  lemma UpdateRaised(obj: ClassClass, d: seq<InstructionData>, t: nat, r: InstructionData)
    requires t < |d| && RecordRaised(obj, d[t], r)
    ensures Raised(obj, d, d[t := r])
  {
    hide Above;
    forall k | 0 <= k < |d|
      ensures RecordRaised(obj, d[k], d[k])
    {
      AboveReflexive(obj, d[k].state);
    }
  }

  lemma AbsorbAdvances(m: Method, d: seq<InstructionData>, t: nat, x: State)
    requires Legal(m) && Consistent(m, d) && t < |d| && Welcome(m, t, x) && SameHeight(d[t].state.stack, x.stack)
    ensures Advanced(m, d, d[t := Absorb(m.obj, d[t], x)])
    ensures Covers(m.obj, Absorb(m.obj, d[t], x).state, x)
  {
    AbsorbRecord(m, d, t, x);
    assert RecordKnown(m, d, t);
    hide Due, Above, StateKnown, MarkedBy, Shaped, Reachable, Merged, Legal, NoHeavier, AllAssignable, Embeds;
    var r := Absorb(m.obj, d[t], x);
    AbsorbLighter(m, d, t, r);
    UpdateConsistent(m, d, t, r);
    UpdateRaised(m.obj, d, t, r);
  }

  lemma MarkAdvances(m: Method, d: seq<InstructionData>, i: nat, t: nat)
    requires Legal(m) && Consistent(m, d) && t < |d| && i < |d| && d[i].state.Visited() && Marks(m, i, t)
    ensures Advanced(m, d, d[t := d[t].(isTarget := true)])
  {
    assert RecordKnown(m, d, t);
    hide Due, Above, StateKnown, Marks, Shaped, Reachable, Legal;
    AboveReflexive(m.obj, d[t].state);
    UpdateConsistent(m, d, t, d[t].(isTarget := true)) by { assert MarkedBy(m, d, t); }
    UpdateRaised(m.obj, d, t, d[t].(isTarget := true));
  }

  // ---------- what flowed stays covered ----------

  lemma RaisedCovers(m: Method, d: seq<InstructionData>, e: seq<InstructionData>, t: nat, x: State)
    requires Legal(m) && Consistent(m, d) && Consistent(m, e) && Raised(m.obj, d, e) && t < |d|
    requires StateKnown(m.obj, m.depth, x) && Covers(m.obj, d[t].state, x)
    ensures Covers(m.obj, e[t].state, x)
  {
    hide Above, Covers, StateKnown, MarkedBy, Shaped, Reachable;
    assert RecordKnown(m, d, t) && RecordKnown(m, e, t) && RecordRaised(m.obj, d[t], e[t]);
    CoversUp(m.obj, m.depth, d[t].state, x, e[t].state);
  }
}
