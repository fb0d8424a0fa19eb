/** The class generator's own preverifier: a work list of branch targets and their stacks. */
module StackMaps {
  import opened Sets

  datatype StackEntry = StackEntry(item: nat, data: int)
  type Stack = seq<StackEntry>

  datatype Kind = Next | Branch(target: nat) | Goto(target: nat) | Return

  /** Bytecode by offset: what an instruction does to control, how long it is, and what it does to
      the stack of types before it jumps or falls through. */
  datatype Bytecode = Bytecode(
    size: nat, starts: set<nat>, kind: nat -> Kind, length: nat -> nat, effect: (nat, Stack) -> Stack)

  datatype StackMap = StackMap(offset: nat, stack: Stack)

  function Falls(k: Kind): bool {
    k.Next? || k.Branch?
  }

  function Jumps(k: Kind): bool {
    k.Branch? || k.Goto?
  }

  /** Instructions are where control goes, and no path runs off the end. */
  predicate Legal(c: Bytecode) {
    && 0 in c.starts
    && (forall o :: o in c.starts ==> o < c.size && c.length(o) > 0)
    && (forall o :: o in c.starts && Falls(c.kind(o)) ==> o + c.length(o) in c.starts)
    && (forall o :: o in c.starts && Jumps(c.kind(o)) ==> c.kind(o).target in c.starts)
    && c.size <= 0x0fff_ffff
  }

  /** One step of the simulated run. */
  predicate Step(c: Bytecode, a: StackMap, b: StackMap) {
    && b.stack == c.effect(a.offset, a.stack)
    && ((Falls(c.kind(a.offset)) && b.offset == a.offset + c.length(a.offset))
        || (Jumps(c.kind(a.offset)) && b.offset == c.kind(a.offset).target))
  }

  /** A simulated run from the beginning of the code with an empty stack. */
  predicate Run(c: Bytecode, r: seq<StackMap>) {
    && r != [] && r[0] == StackMap(0, [])
    && forall i :: 0 < i < |r| ==> Step(c, r[i - 1], r[i])
  }

  ghost predicate Arises(c: Bytecode, m: StackMap) {
    exists r: seq<StackMap> :: Run(c, r) && r[|r| - 1] == m
  }

  lemma ArisesStep(c: Bytecode, a: StackMap, b: StackMap)
    requires Arises(c, a) && Step(c, a, b)
    ensures Arises(c, b)
  {
    hide Step;
    var r: seq<StackMap> :| Run(c, r) && r[|r| - 1] == a;
    assert Run(c, r + [b]);
  }

  lemma ArisesFirst(c: Bytecode)
    ensures Arises(c, StackMap(0, []))
  {
    assert Run(c, [StackMap(0, [])]);
  }

  /** A branch that some run executes goes to `t`. */
  ghost predicate Targeted(c: Bytecode, t: nat) {
    exists m :: Arises(c, m) && Jumps(c.kind(m.offset)) && c.kind(m.offset).target == t
  }

  function Offsets(list: seq<StackMap>): (r: set<nat>)
    ensures forall o :: o in r <==> exists i :: 0 <= i < |list| && list[i].offset == o
  {
    set i | 0 <= i < |list| :: list[i].offset
  }

  predicate Distinct(list: seq<StackMap>) {
    forall i, j :: 0 <= i < j < |list| ==> list[i].offset != list[j].offset
  }

  /** Offset `o` is on the straight line of code that starts at `from`. */
  predicate OnLine(c: Bytecode, from: nat, o: nat)
    requires Legal(c)
    decreases c.size - from
  {
    from == o || (from in c.starts && Falls(c.kind(from)) && OnLine(c, from + c.length(from), o))
  }

  /** All jumps on the line from `from` go to listed offsets. */
  ghost predicate LineListed(c: Bytecode, from: nat, listed: set<nat>)
    requires Legal(c)
  {
    forall o: nat :: OnLine(c, from, o) && Jumps(c.kind(o)) ==> c.kind(o).target in listed
  }

  /** `at` is on the line, and all jumps on it before `at` go to listed offsets. */
  ghost predicate LineSoFar(c: Bytecode, from: nat, at: nat, listed: set<nat>)
    requires Legal(c)
  {
    OnLine(c, from, at) && forall o: nat :: OnLine(c, from, o) && o < at && Jumps(c.kind(o)) ==>
      c.kind(o).target in listed
  }

  /** A line goes through its offsets in order, one instruction after the other. */
  lemma {:induction false} LineOrder(c: Bytecode, from: nat, a: nat, b: nat)
    requires Legal(c) && OnLine(c, from, a) && OnLine(c, from, b) && a < b
    ensures from <= a && a in c.starts && Falls(c.kind(a)) && a + c.length(a) <= b
    decreases c.size - from
  {
    if from == a {
      LineForward(c, from + c.length(from), b);
    } else {
      LineForward(c, from + c.length(from), a);
      LineOrder(c, from + c.length(from), a, b);
    }
  }

  lemma {:induction false} LineForward(c: Bytecode, from: nat, o: nat)
    requires Legal(c) && OnLine(c, from, o)
    ensures from <= o
    decreases c.size - from
  {
    if from != o {
      LineForward(c, from + c.length(from), o);
    }
  }

  lemma {:induction false} LineExtends(c: Bytecode, from: nat, a: nat)
    requires Legal(c) && OnLine(c, from, a) && a in c.starts && Falls(c.kind(a))
    ensures OnLine(c, from, a + c.length(a))
    decreases c.size - from
  {
    if from != a {
      LineExtends(c, from + c.length(from), a);
    }
  }

  lemma LineStart(c: Bytecode, from: nat, listed: set<nat>)
    requires Legal(c)
    ensures LineSoFar(c, from, from, listed)
  {
    forall o: nat | OnLine(c, from, o)
      ensures from <= o
    {
      LineForward(c, from, o);
    }
  }

  lemma LineStep(c: Bytecode, from: nat, at: nat, before: set<nat>, listed: set<nat>)
    requires Legal(c) && at in c.starts && LineSoFar(c, from, at, before) && before <= listed
    requires Jumps(c.kind(at)) ==> c.kind(at).target in listed
    ensures Falls(c.kind(at)) ==> LineSoFar(c, from, at + c.length(at), listed)
    ensures !Falls(c.kind(at)) ==> LineListed(c, from, listed)
  {
    hide OnLine, Legal;
    if Falls(c.kind(at)) {
      LineExtends(c, from, at);
    }
    forall o: nat | OnLine(c, from, o) && Jumps(c.kind(o)) && (Falls(c.kind(at)) ==> o < at + c.length(at))
      ensures c.kind(o).target in listed
    {
      if o > at {
        LineOrder(c, from, at, o);
      }
    }
  }

  lemma JumpArises(c: Bytecode, m: StackMap, t: nat)
    requires Arises(c, m) && Jumps(c.kind(m.offset)) && c.kind(m.offset).target == t
    ensures Arises(c, StackMap(t, c.effect(m.offset, m.stack))) && Targeted(c, t)
  {
    ArisesStep(c, m, StackMap(t, c.effect(m.offset, m.stack)));
  }

  /** Everything that follows the beginning of the code, or one of these maps, is listed. */
  ghost predicate ExploredBy(c: Bytecode, maps: seq<StackMap>, listed: set<nat>)
    requires Legal(c)
  {
    LineListed(c, 0, listed) && forall i :: 0 <= i < |maps| ==> LineListed(c, maps[i].offset, listed)
  }

  lemma ExploredMore(c: Bytecode, maps: seq<StackMap>, m: StackMap, before: set<nat>, listed: set<nat>)
    requires Legal(c) && ExploredBy(c, maps, before) && before <= listed && LineListed(c, m.offset, listed)
    ensures ExploredBy(c, maps + [m], listed)
  {
    hide OnLine;
  }

  /** An offset on a line that was explored. */
  ghost predicate OnLines(c: Bytecode, maps: seq<StackMap>, o: nat)
    requires Legal(c)
  {
    o in c.starts && (OnLine(c, 0, o) || exists i :: 0 <= i < |maps| && OnLine(c, maps[i].offset, o))
  }

  lemma OnLinesFall(c: Bytecode, maps: seq<StackMap>, o: nat)
    requires Legal(c) && OnLines(c, maps, o) && Falls(c.kind(o))
    ensures OnLines(c, maps, o + c.length(o))
  {
    hide OnLine;
    if OnLine(c, 0, o) {
      LineExtends(c, 0, o);
    } else {
      var i :| 0 <= i < |maps| && OnLine(c, maps[i].offset, o);
      LineExtends(c, maps[i].offset, o);
    }
  }

  lemma OnLinesJump(c: Bytecode, maps: seq<StackMap>, o: nat)
    requires Legal(c) && OnLines(c, maps, o) && Jumps(c.kind(o)) && ExploredBy(c, maps, Offsets(maps))
    ensures c.kind(o).target in Offsets(maps) && OnLines(c, maps, c.kind(o).target)
  {
    hide OnLine;
    var t := c.kind(o).target;
    if !OnLine(c, 0, o) {
      var i :| 0 <= i < |maps| && OnLine(c, maps[i].offset, o);
      assert LineListed(c, maps[i].offset, Offsets(maps));
    }
    var i :| 0 <= i < |maps| && maps[i].offset == t;
    LineSelf(c, t);
  }

  /** Once every listed target is explored, all that a run reaches is on an explored line. */
  lemma {:induction false} RunOnLines(c: Bytecode, maps: seq<StackMap>, r: seq<StackMap>)
    requires Legal(c) && ExploredBy(c, maps, Offsets(maps)) && Run(c, r)
    ensures OnLines(c, maps, r[|r| - 1].offset)
    decreases |r|
  {
    hide OnLine, ExploredBy, Offsets;
    if |r| == 1 {
      LineSelf(c, 0);
    } else {
      var a, b := r[|r| - 2], r[|r| - 1];
      RunOnLines(c, maps, r[..|r| - 1]);
      assert Step(c, a, b);
      hide OnLines;
      if Falls(c.kind(a.offset)) && b.offset == a.offset + c.length(a.offset) {
        OnLinesFall(c, maps, a.offset);
      } else {
        OnLinesJump(c, maps, a.offset);
      }
    }
  }

  lemma AllTargets(c: Bytecode, maps: seq<StackMap>, t: nat)
    requires Legal(c) && ExploredBy(c, maps, Offsets(maps))
    ensures Targeted(c, t) ==> t in Offsets(maps)
  {
    hide ExploredBy, Step, Legal, OnLines, Offsets;
    if Targeted(c, t) {
      var m :| Arises(c, m) && Jumps(c.kind(m.offset)) && c.kind(m.offset).target == t;
      var r: seq<StackMap> :| Run(c, r) && r[|r| - 1] == m;
      RunOnLines(c, maps, r);
      OnLinesJump(c, maps, m.offset);
    }
  }

  class Preverifier {
    const c: Bytecode
    var pending: seq<StackMap>
    var output: seq<StackMap>

    ghost predicate Valid()
      reads this
    {
      && Legal(c) && Distinct(pending + output)
      && (forall m :: m in pending + output ==> m.offset in c.starts && Arises(c, m) && Targeted(c, m.offset))
    }

    ghost function Listed(): set<nat>
      reads this
    {
      Offsets(pending + output)
    }

    constructor (code: Bytecode)
      requires Legal(code)
      ensures Valid() && c == code && pending == [] && output == []
    {
      c, pending, output := code, [], [];
    }

    /** Adds a branch target to the pending list, unless it is known. */
    method ProcessJump(map_: StackMap, position: nat)
      requires Valid() && position in c.starts && Arises(c, StackMap(position, map_.stack)) && Targeted(c, position)
      modifies `pending
      ensures Valid() && Listed() == old(Listed()) + {position}
      ensures pending == if position in old(Listed()) then old(pending)
              else old(pending) + [StackMap(position, map_.stack)]
    {
      hide Legal, Arises, Targeted;
      var k := 0;
      while k < |pending|
        invariant k <= |pending| && forall i :: 0 <= i < k ==> pending[i].offset != position
      {
        if pending[k].offset == position {
          assert (pending + output)[k].offset == position;
          return;
        }
        k := k + 1;
      }
      k := 0;
      while k < |output|
        invariant k <= |output| && forall i :: 0 <= i < k ==> output[i].offset != position
      {
        if output[k].offset == position {
          assert (pending + output)[|pending| + k].offset == position;
          return;
        }
        k := k + 1;
      }
      ghost var before := pending;
      pending := pending + [StackMap(position, map_.stack)];
      Inserted(before, output, StackMap(position, map_.stack));
    }

    lemma Inserted(before: seq<StackMap>, after: seq<StackMap>, m: StackMap)
      requires Distinct(before + after) && forall i :: 0 <= i < |before + after| ==>
               (before + after)[i].offset != m.offset
      ensures Distinct(before + [m] + after) && Offsets(before + [m] + after) == Offsets(before + after) + {m.offset}
    {
      var was, now, k := before + after, before + [m] + after, |before|;
      assert forall i :: 0 <= i < |now| && i != k ==> now[i] == was[if i < k then i else i - 1];
      assert now[k] == m;
      forall o | o in Offsets(was)
        ensures o in Offsets(now)
      {
        var i :| 0 <= i < |was| && was[i].offset == o;
        assert now[if i < k then i else i + 1].offset == o;
      }
    }

    /** Follows the code from a map's offset until a goto or a return, noting every jump. */
    method PreverifyFrom(map_: StackMap)
      requires Valid() && map_.offset in c.starts && Arises(c, map_)
      modifies `pending
      ensures Valid() && old(Listed()) <= Listed() && LineListed(c, map_.offset, Listed())
      ensures Listed() == old(Listed()) ==> pending == old(pending)
      ensures old(pending) <= pending
    {
      hide Arises, Targeted, Offsets;
      var now := map_;
      var more := true;
      LineStart(c, map_.offset, Listed());
      while more
        invariant Valid() && now.offset in c.starts && Arises(c, now)
        invariant old(Listed()) <= Listed() && old(pending) <= pending
        invariant Listed() == old(Listed()) ==> pending == old(pending)
        invariant more ==> LineSoFar(c, map_.offset, now.offset, Listed())
        invariant !more ==> LineListed(c, map_.offset, Listed())
        decreases c.size - now.offset, more
      {
        ghost var here := Listed();
        var kind, stack := c.kind(now.offset), c.effect(now.offset, now.stack);
        if Jumps(kind) {
          JumpArises(c, now, kind.target);
          ProcessJump(StackMap(now.offset, stack), kind.target);
        }
        LineStep(c, map_.offset, now.offset, here, Listed());
        if Falls(kind) {
          var next := StackMap(now.offset + c.length(now.offset), stack);
          ArisesStep(c, now, next);
          now := next;
        } else {
          more := false;
        }
      }
    }

    /** Moves the first pending map to the output. */
    method Take() returns (map_: StackMap)
      requires Valid() && pending != []
      modifies `pending, `output
      ensures Valid() && map_ == old(pending)[0] && pending == old(pending)[1..] && output == old(output) + [map_]
      ensures Listed() == old(Listed()) && map_.offset in c.starts && Arises(c, map_)
    {
      hide Arises, Targeted, Legal;
      map_ := pending[0];
      assert (pending + output)[0] == map_;
      Rotated(pending, output);
      pending, output := pending[1..], output + [map_];
    }

    lemma Rotated(p: seq<StackMap>, q: seq<StackMap>)
      requires p != [] && Distinct(p + q)
      ensures Distinct(p[1..] + (q + [p[0]])) && Offsets(p[1..] + (q + [p[0]])) == Offsets(p + q)
      ensures forall m :: m in p[1..] + (q + [p[0]]) ==> m in p + q
    {
      var was, now := p + q, p[1..] + (q + [p[0]]);
      var k := |was| - 1;
      assert now == was[1..] + [was[0]];
      assert forall i :: 0 <= i < k ==> now[i] == was[i + 1];
      forall o | o in Offsets(was)
        ensures o in Offsets(now)
      {
        var i :| 0 <= i < |was| && was[i].offset == o;
        assert now[if i == 0 then k else i - 1].offset == o;
      }
    }

    ghost predicate Explored()
      requires Legal(c)
      reads this
    {
      ExploredBy(c, output, Listed())
    }

    /** Works through the pending list until it is empty. */
    method Explore()
      requires Valid() && pending == [] && output == []
      modifies `pending, `output
      ensures Valid() && Explored() && pending == []
    {
      hide Arises, Targeted, Offsets, LineListed, OnLine, Distinct, ExploredBy, Legal;
      ArisesFirst(c);
      ListedStarts();
      PreverifyFrom(StackMap(0, []));
      ExploredFirst(c, Listed());
      while pending != []
        invariant Valid() && Explored()
        decreases |c.starts - Listed()|, |pending|
      {
        ghost var here, out := Listed(), output;
        var map_ := Take();
        PreverifyFrom(map_);
        ListedStarts();
        FewerLeft(c.starts, here, Listed());
        ExploredMore(c, out, map_, here, Listed());
      }
    }

    /** The targets of all branches that some run executes, each once and in order, each with a stack
        that a run has there. */
    method PreverifyBytecode() returns (maps: seq<StackMap>)
      requires Valid() && pending == [] && output == []
      modifies `pending, `output
      ensures forall i, j :: 0 <= i < j < |maps| ==> maps[i].offset < maps[j].offset
      ensures forall i :: 0 <= i < |maps| ==> Arises(c, maps[i])
      ensures forall t: nat :: t in Offsets(maps) <==> Targeted(c, t)
    {
      hide Arises, Targeted, Offsets, LineListed, OnLine, Distinct, ExploredBy, Legal;
      Explore();
      assert pending + output == output;
      forall t: nat
        ensures t in Offsets(output) <==> Targeted(c, t)
      {
        AllTargets(c, output, t);
        ListedTargeted(t);
      }
      SmallOffsets();
      maps := SortMapList(output);
      SameOffsets(maps, output);
      forall i | 0 <= i < |maps|
        ensures Arises(c, maps[i])
      {
        assert maps[i] in output;
      }
    }

    lemma ListedTargeted(t: nat)
      requires Valid()
      ensures t in Offsets(output) ==> Targeted(c, t)
    {
      hide Targeted, Arises, Legal, Distinct;
      if t in Offsets(output) {
        var i :| 0 <= i < |output| && output[i].offset == t;
        assert output[i] in pending + output;
      }
    }

    lemma SmallOffsets()
      requires Valid() && pending == []
      ensures Distinct(output) && forall i :: 0 <= i < |output| ==> output[i].offset < NO_OFFSET && Arises(c, output[i])
    {
      hide Targeted, Arises;
      assert pending + output == output;
    }

    lemma ListedStarts()
      requires Valid()
      ensures Listed() <= c.starts && 0 in c.starts
    {
      hide Arises, Targeted;
    }
  }

  lemma ExploredFirst(c: Bytecode, listed: set<nat>)
    requires Legal(c) && LineListed(c, 0, listed)
    ensures ExploredBy(c, [], listed)
  {}

  lemma SameOffsets(a: seq<StackMap>, b: seq<StackMap>)
    requires forall m :: m in a <==> m in b
    ensures Offsets(a) == Offsets(b)
  {
    forall o | o in Offsets(a)
      ensures o in Offsets(b)
    {
      var i :| 0 <= i < |a| && a[i].offset == o;
      assert a[i] in b;
    }
    forall o | o in Offsets(b)
      ensures o in Offsets(a)
    {
      var i :| 0 <= i < |b| && b[i].offset == o;
      assert b[i] in a;
    }
  }

  lemma LineSelf(c: Bytecode, o: nat)
    requires Legal(c)
    ensures OnLine(c, o, o)
  {}

  // ---------- sorting ----------

  const NO_OFFSET: nat := 0x0fff_ffff

  /** The smallest offset from `range` on. */
  method Smallest(list: seq<StackMap>, range: nat) returns (smallest: nat)
    requires forall i :: 0 <= i < |list| ==> list[i].offset < NO_OFFSET
    ensures smallest == NO_OFFSET ==> forall i :: 0 <= i < |list| ==> list[i].offset < range
    ensures smallest < NO_OFFSET ==> range <= smallest && exists i :: 0 <= i < |list| && list[i].offset == smallest
    ensures forall i :: 0 <= i < |list| && list[i].offset >= range ==> smallest <= list[i].offset
    ensures smallest <= NO_OFFSET
  {
    smallest := NO_OFFSET;
    var it := 0;
    while it < |list|
      invariant it <= |list| && smallest <= NO_OFFSET
      invariant smallest == NO_OFFSET ==> forall i :: 0 <= i < it ==> list[i].offset < range
      invariant smallest < NO_OFFSET ==> range <= smallest && exists i :: 0 <= i < it && list[i].offset == smallest
      invariant forall i :: 0 <= i < it && list[i].offset >= range ==> smallest <= list[i].offset
    {
      if list[it].offset < smallest && list[it].offset >= range {
        smallest := list[it].offset;
      }
      it := it + 1;
    }
  }

  method SortMapList(list: seq<StackMap>) returns (sorted: seq<StackMap>)
    requires Distinct(list) && forall i :: 0 <= i < |list| ==> list[i].offset < NO_OFFSET
    ensures forall i, j :: 0 <= i < j < |sorted| ==> sorted[i].offset < sorted[j].offset
    ensures forall m :: m in sorted <==> m in list
  {
    var range := 0;
    sorted := [];
    while true
      invariant forall i, j :: 0 <= i < j < |sorted| ==> sorted[i].offset < sorted[j].offset
      invariant forall i :: 0 <= i < |sorted| ==> sorted[i].offset < range
      invariant forall m :: m in sorted <==> m in list && m.offset < range
      invariant range <= NO_OFFSET
      decreases NO_OFFSET - range
    {
      var smallest := Smallest(list, range);
      if smallest == NO_OFFSET {
        break;
      }
      range := smallest + 1;
      var it := 0;
      while list[it].offset != smallest
        invariant it < |list| && forall i :: 0 <= i < it ==> list[i].offset != smallest
        decreases |list| - it
      {
        it := it + 1;
      }
      sorted := sorted + [list[it]];
    }
  }
}
