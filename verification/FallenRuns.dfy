/** Falling through out of a subroutine shows: some effects of the instructions tell the old code and
    the new code apart as soon as a run falls out. */
module FallenRuns {
  import opened Wrappers
  import opened Subroutines
  import opened InlinedList
  import opened InlineJsr
  import opened NewCode
  import opened EmittedCode
  import opened ExceptionTable
  import opened CodeOffsets
  import opened InlineRuns
  import opened ReturnAddresses
  import FallingOut

  // ---------- the same method without falling out ----------

  /** Falling through leaves the instruction's subroutine. */
  predicate FallsOut(m: Code, i: nat)
    requires Sized(m) && i < |m.ops|
  {
    (m.ops[i].Plain? || m.ops[i].If?) && !InPlace(m, i, i + 1)
  }

  function CutOp(m: Code, i: nat): Op
    requires Sized(m) && i < |m.ops|
  {
    if !FallsOut(m, i) then m.ops[i] else if m.ops[i].If? then Goto(m.ops[i].target) else Exit
  }

  /** The method with all ways out by falling through cut off. It is rewritten to the same code. */
  function Cut(m: Code): (r: Code)
    requires Sized(m)
    ensures Sized(r) && r == m.(ops := r.ops) && forall i :: 0 <= i < |m.ops| ==> r.ops[i] == CutOp(m, i)
  {
    m.(ops := seq(|m.ops|, (i: nat) requires i < |m.ops| => CutOp(m, i)))
  }

  lemma {:induction false} SameBody(m: Code, s: Subr, i: nat, base: nat)
    requires Sized(m) && i <= |m.ops|
    ensures Body(Cut(m), s, i, base) == Body(m, s, i, base)
    decreases Room(m, s), |m.ops| - i, 1
  {
    if i < |m.ops| {
      if Included(m, s, i) {
        SameInner(m, s, i, base);
        SameBody(m, s, i + 1, base + 1 + |Inner(m, s, i, base)|);
      } else {
        SameBody(m, s, i + 1, base);
      }
    }
  }

  lemma SameInner(m: Code, s: Subr, i: nat, base: nat)
    requires Sized(m) && i < |m.ops| && Included(m, s, i)
    ensures Included(Cut(m), s, i) && Inner(Cut(m), s, i, base) == Inner(m, s, i, base)
    decreases Room(m, s), |m.ops| - i, 0
  {
    if Calls(m, i) {
      SameBody(m, Sub(base, m.ops[i].target, s), 0, base + 1);
    }
  }

  lemma {:induction false} SameOffset(m: Code, refs: seq<CodeRef>, p: nat)
    requires Numbered(m, refs) && p <= |refs|
    ensures Numbered(Cut(m), refs) && Offset(Cut(m), refs, p) == Offset(m, refs, p)
    decreases p
  {
    if p > 0 {
      SameOffset(m, refs, p - 1);
    }
  }

  lemma SameDisplacement(m: Code, refs: seq<CodeRef>, s: Subr, t: nat, pc: nat)
    requires Numbered(m, refs) && Found(m, refs, s, t)
    ensures Numbered(Cut(m), refs) && Found(Cut(m), refs, s, t)
    ensures Displacement(Cut(m), refs, s, t, pc) == Displacement(m, refs, s, t, pc)
  {
    hide Find, Places, Offset;
    SameOffset(m, refs, 0);
    SameOffset(m, refs, TargetPlace(refs, s, t).value);
  }

  lemma SameDisplacements(m: Code, refs: seq<CodeRef>, s: Subr, ts: seq<nat>, pc: nat)
    requires Numbered(m, refs) && forall k :: 0 <= k < |ts| ==> Found(m, refs, s, ts[k])
    ensures Numbered(Cut(m), refs) && forall k :: 0 <= k < |ts| ==> Found(Cut(m), refs, s, ts[k])
    ensures Displacements(Cut(m), refs, s, ts, pc) == Displacements(m, refs, s, ts, pc)
  {
    hide Displacement, Found;
    SameOffset(m, refs, 0);
    forall k | 0 <= k < |ts|
      ensures Found(Cut(m), refs, s, ts[k]) && Displacement(Cut(m), refs, s, ts[k], pc)
              == Displacement(m, refs, s, ts[k], pc)
    {
      SameDisplacement(m, refs, s, ts[k], pc);
    }
  }

  lemma SameJump(m: Code, refs: seq<CodeRef>, next: map<nat, nat>, p: nat)
    requires Sized(m) && AllResolvable(Cut(m), refs, next) && AllResolvable(m, refs, next)
    requires p < |refs| && refs[p].flag != Skipped
    ensures ShortJump(Cut(m), refs, next, p) == ShortJump(m, refs, next, p)
  {
    hide Displacement, Find, Places, Offset, TargetPlace, InPlace;
    SameOffset(m, refs, p);
    var i, s, pc := refs[p].inumber, refs[p].sub, Offset(m, refs, p);
    assert Resolvable(m, refs, next, p);
    match m.ops[i] {
      case If(t) => SameDisplacement(m, refs, s, t, pc);
      case Goto(t) => SameDisplacement(m, refs, s, t, pc);
      case Jsr(t, _) =>
        if refs[p].flag == JsrTargetedGoto {
          SameDisplacement(m, refs, refs[p + 1].sub, t, pc);
        } else if refs[p].flag == JsrSimpleGoto {
          SameDisplacement(m, refs, s, t, pc);
        }
      case Ret => SameOffset(m, refs, next[s.caller]);
      case _ =>
    }
  }

  lemma SameInstr(m: Code, refs: seq<CodeRef>, next: map<nat, nat>, p: nat)
    requires Sized(m) && AllResolvable(Cut(m), refs, next) && AllResolvable(m, refs, next)
    requires p < |refs| && refs[p].flag != Skipped
    ensures Instr(m, refs, next, p) == Instr(Cut(m), refs, next, p)
  {
    hide Displacements, Found, Offset, ShortJump, InPlace;
    SameOffset(m, refs, p);
    SameOffset(m, refs, p + 1);
    SameJump(m, refs, next, p);
    var op := m.ops[refs[p].inumber];
    assert Resolvable(m, refs, next, p);
    if op.Switch? {
      SameDisplacements(m, refs, refs[p].sub, op.targets, Offset(m, refs, p));
    }
  }

  /** What is generated for the method is what is generated without the ways out. */
  lemma {:induction false} SameEmitted(m: Code, refs: seq<CodeRef>, next: map<nat, nat>, count: nat)
    requires Sized(m) && AllResolvable(Cut(m), refs, next) && AllResolvable(m, refs, next) && count <= |refs|
    ensures Emitted(Cut(m), refs, next, count) == Emitted(m, refs, next, count)
    decreases count
  {
    hide Resolvable, Instr;
    if count > 0 {
      SameEmitted(m, refs, next, count - 1);
      if refs[count - 1].flag != Skipped {
        SameInstr(m, refs, next, count - 1);
      }
    }
  }

  lemma SameBlock(m: Code, refs: seq<CodeRef>, b: seq<CatchFrame>, k: nat, places: seq<nat>, p: nat)
    requires Numbered(m, refs) && k < |m.handlers| && (forall j :: 0 <= j < |places| ==> places[j] < |refs|)
             && p < |refs|
    requires BlockAt(m, refs, b, k, places, p)
    ensures Numbered(Cut(m), refs) && BlockAt(Cut(m), refs, b, k, places, p)
  {
    hide Offset, SpannedBy, Spans, Encloses, Places;
    SameOffset(m, refs, p);
    forall h | 0 <= h < |places|
      ensures Match(Cut(m), refs, k, places[h], p) <==> Match(m, refs, k, places[h], p)
      ensures Offset(Cut(m), refs, places[h]) == Offset(m, refs, places[h])
    {
      SameOffset(m, refs, places[h]);
    }
    hide Match;
    assert MatchAmong(m, refs, k, places, p) <==> MatchAmong(Cut(m), refs, k, places, p);
    forall j | 0 <= j < |b| && Spans(b[j], Offset(m, refs, p))
      ensures LeadsAmong(Cut(m), refs, b[j], k, places, p)
    {
      assert LeadsAmong(m, refs, b[j], k, places, p);
    }
  }

  lemma {:induction false} SameTable(m: Code, refs: seq<CodeRef>, table: seq<CatchFrame>, count: nat)
    requires Numbered(m, refs) && count <= |m.handlers| && TableFor(m, refs, table, count)
    ensures Numbered(Cut(m), refs) && TableFor(Cut(m), refs, table, count)
    decreases count
  {
    hide Offset, BlockAt, Places, Cut;
    SameOffset(m, refs, 0);
    assert Cut(m).handlers == m.handlers;
    if count > 0 {
      var places := Places(refs, m.handlers[count - 1].handler);
      var n: nat :| n <= |table| && TableFor(m, refs, table[..n], count - 1)
          && BlockFor(m, refs, table[n..], count - 1, places);
      SameTable(m, refs, table[..n], count - 1);
      forall p: nat | p < |refs| && refs[p].flag != Skipped
        ensures BlockAt(Cut(m), refs, table[n..], count - 1, places, p)
      {
        SameBlock(m, refs, table[n..], count - 1, places, p);
      }
      assert BlockFor(Cut(m), refs, table[n..], count - 1, places);
    }
  }

  /** What the rewriter makes of a method that would be structured but for falling out. */
  ghost predicate Written(m: Code, refs: seq<CodeRef>, next: map<nat, nat>, table: seq<CatchFrame>) {
    && Sized(m) && Structured(Cut(m)) && refs == Refs(m) && EndsKnown(m, refs, next, 0)
    && AllResolvable(m, refs, next) && ShortJumpsFit(m, refs, next) && TableFor(m, refs, table, |m.handlers|)
  }

  lemma WrittenGenerated(m: Code, refs: seq<CodeRef>, next: map<nat, nat>, table: seq<CatchFrame>)
    requires Written(m, refs, next, table)
    ensures Generated(Cut(m), refs, next, table)
    ensures Emitted(Cut(m), refs, next, |refs|) == Emitted(m, refs, next, |refs|)
  {
    hide TableFor, Structured, Offset, Resolvable, Cut, Body, ShortJump;
    SameBody(m, Top, 0, 0);
    SameOffset(m, refs, 0);
    SameEnds(m, refs, next);
    SameTable(m, refs, table, |m.handlers|);
    BuiltResolvable(Cut(m), refs, next);
    SameEmitted(m, refs, next, |refs|);
    forall p | 0 <= p < |refs| && refs[p].flag != Skipped
      ensures ShortJump(Cut(m), refs, next, p) == ShortJump(m, refs, next, p)
    {
      SameJump(m, refs, next, p);
    }
  }

  lemma SameEnds(m: Code, refs: seq<CodeRef>, next: map<nat, nat>)
    requires Sized(m) && EndsKnown(m, refs, next, 0)
    ensures EndsKnown(Cut(m), refs, next, 0)
  {
    hide Body, InPlace;
    forall q: nat | q < |refs| && refs[q].inumber < |m.ops| && Calls(Cut(m), refs[q].inumber)
      ensures q in next && next[q] == CallEnd(Cut(m), refs, q)
    {
      assert Calls(m, refs[q].inumber);
      SameBody(m, Sub(q, m.ops[refs[q].inumber].target, refs[q].sub), 0, q + 1);
    }
  }

  // ---------- runs that have not fallen out yet ----------

  /** The instruction is about to fall through out of its subroutine. */
  predicate Falls<D>(m: Code, act: (nat, D) -> Act<D>, c: Config<D>)
    requires Sized(m)
  {
    c.Running? && c.pc < |m.ops| && FallsOut(m, c.pc) && act(c.pc, c.data).Fall?
  }

  lemma {:induction false} SameOldHandler(m: Code, i: nat, caught: nat -> bool, count: nat)
    requires Sized(m) && count <= |m.handlers|
    ensures OldHandler(Cut(m), i, caught, count) == OldHandler(m, i, caught, count)
  {
    if count > 0 {
      SameOldHandler(m, i, caught, count - 1);
    }
  }

  lemma SameCaught<D>(m: Code, i: nat, frames: seq<nat>, caught: nat -> bool, data: D)
    requires Sized(m)
    ensures Caught(Cut(m), i, frames, caught, data) == Caught(m, i, frames, caught, data)
  {
    SameOldHandler(m, i, caught, |m.handlers|);
    hide OldHandler;
  }

  /** A step that goes on, and does not fall out, is a step of the method without the ways out. */
  lemma SameOldStep<D>(m: Code, act: (nat, D) -> Act<D>, handle: Handle<D>, c: Config<D>)
    requires Sized(m) && !Falls(m, act, c) && !TakesAddress(m, c) && OldStep(m, act, handle, c).Running?
    ensures !TakesAddress(Cut(m), c) && OldStep(Cut(m), act, handle, c) == OldStep(m, act, handle, c)
  {
    hide Caught, InPlace;
    if c.Running? && c.pc < |m.ops| {
      var a := act(c.pc, c.data);
      if a.Throw? {
        SameCaught(m, c.pc, c.frames, a.caught, a.data);
      }
    }
  }

  lemma SameNewStep<D>(m: Code, act: (nat, D) -> Act<D>, code: seq<NewInstr>, table: seq<CatchFrame>, c: NewConfig<D>)
    requires Sized(m) && NewStep(Cut(m), act, code, table, c).NewRunning?
    ensures NewStep(m, act, code, table, c) == NewStep(Cut(m), act, code, table, c)
  {
    hide Fetch, NewCaught, InPlace;
  }

  /** Nothing has fallen out, and no return address has been handled, in the first `n` steps. */
  ghost predicate Calm<D>(m: Code, act: (nat, D) -> Act<D>, handle: Handle<D>, c: Config<D>, n: nat)
    requires Sized(m)
  {
    forall k: nat :: k < n ==>
      !Falls(m, act, OldRun(m, act, handle, c, k)) && !TakesAddress(m, OldRun(m, act, handle, c, k))
  }

  lemma CalmStep<D>(m: Code, act: (nat, D) -> Act<D>, handle: Handle<D>, c: Config<D>, n: nat)
    requires Sized(m) && n > 0 && Calm(m, act, handle, c, n)
    ensures !Falls(m, act, c) && !TakesAddress(m, c) && Calm(m, act, handle, OldStep(m, act, handle, c), n - 1)
  {
    hide OldStep, TakesAddress, Falls;
    assert OldRun(m, act, handle, c, 0) == c;
    forall k: nat | k < n - 1
      ensures var d := OldRun(m, act, handle, OldStep(m, act, handle, c), k); !Falls(m, act, d) && !TakesAddress(m, d)
    {
      assert OldRun(m, act, handle, c, k + 1) == OldRun(m, act, handle, OldStep(m, act, handle, c), k);
    }
  }

  /** As long as nothing has fallen out, the new run is at a copy of the old run's instruction. */
  lemma {:induction false} CalmReaches<D>(m: Code, refs: seq<CodeRef>, next: map<nat, nat>, table: seq<CatchFrame>,
                                          act: (nat, D) -> Act<D>, handle: Handle<D>, c: Config<D>, p: nat, n: nat)
      returns (q: nat, k: nat)
    requires Sized(m) && Generated(Cut(m), refs, next, table) && At(refs, c, p) && Calm(m, act, handle, c, n)
    requires OldRun(m, act, handle, c, n).Running?
    ensures var d := OldRun(m, act, handle, c, n);
            At(refs, d, q)
            && NewRun(m, act, Emitted(Cut(m), refs, next, |refs|), table, NewRunning(Offset(Cut(m), refs, p), c.data),
               k)
               == NewRunning(Offset(Cut(m), refs, q), d.data)
    decreases n
  {
    hide Refs, Built, TableFor, Offset, OldStep, NewStep, Emitted, ShortJumpsFit, Resolvable, TakesAddress, Falls;
    hide Calm, Cut;
    if n == 0 {
      q, k := p, 0;
    } else {
      var d := OldStep(m, act, handle, c);
      CalmStep(m, act, handle, c, n);
      if d.Ended? {
        OldRunEnded(m, act, handle, d.outcome, n - 1);
        assert false;
      }
      SameOldStep(m, act, handle, c);
      StepSimulates(Cut(m), refs, next, table, act, handle, c, p) by { assert Sized(Cut(m)); }
      if refs[p].flag == Skipped {
        q, k := CalmReaches(m, refs, next, table, act, handle, d, p + 1, n - 1);
      } else {
        var code, now := Emitted(Cut(m), refs, next, |refs|), NewRunning(Offset(Cut(m), refs, p), c.data);
        var r: nat :| At(refs, d, r) && NewStep(Cut(m), act, code, table, now)
            == NewRunning(Offset(Cut(m), refs, r), d.data);
        SameNewStep(m, act, code, table, now);
        q, k := CalmReaches(m, refs, next, table, act, handle, d, r, n - 1);
        assert NewRun(m, act, code, table, now, k + 1)
               == NewRun(m, act, code, table, NewStep(m, act, code, table, now), k);
        k := k + 1;
      }
    }
  }

  // ---------- effects that tell the runs apart ----------

  function MarkAct<D>(a: Act<D>, mark: nat): Act<(D, nat)> {
    match a
    case Fall(x) => Fall((x, mark))
    case Take(b, x) => Take(b, (x, 0))
    case Throw(caught, x) => Throw(caught, (x, 0))
    case Return(x) => Return((x, 0))
  }

  predicate FallingOp(m: Code, j: nat) {
    Sized(m) && j < |m.ops| && FallsOut(m, j)
  }

  /** The same effects on data that carry a mark: 0 until something falls out, and then 1. The next
      instruction throws, with a mark that says whether it is `i`. */
  function Marking<D>(m: Code, act: (nat, D) -> Act<D>, i: nat): (nat, (D, nat)) -> Act<(D, nat)> {
    (j: nat, d: (D, nat)) =>
      if d.1 == 0 then MarkAct(act(j, d.0), if FallingOp(m, j) then 1 else 0)
      else Throw(_ => false, (d.0, if j == i then 2 else 3))
  }

  function MarkHandle<D>(handle: Handle<D>): Handle<(D, nat)> {
    (j: nat, d: (D, nat), held: seq<nat>) => (MarkAct(handle(j, d.0, held).0, 0), handle(j, d.0, held).1)
  }

  function Lift<D>(c: Config<D>): Config<(D, nat)> {
    match c
    case Running(pc, frames, held, data) => Running(pc, frames, held, (data, 0))
    case Ended(Finished(data)) => Ended(Finished((data, 0)))
    case Ended(Uncaught(data)) => Ended(Uncaught((data, 0)))
    case Ended(Stuck) => Ended(Stuck)
  }

  lemma LiftCaught<D>(m: Code, i: nat, frames: seq<nat>, caught: nat -> bool, data: D)
    requires Sized(m)
    ensures Caught(m, i, frames, caught, (data, 0)) == Lift(Caught(m, i, frames, caught, data))
  {
    hide OldHandler;
  }

  lemma LiftStep<D>(m: Code, act: (nat, D) -> Act<D>, handle: Handle<D>, c: Config<D>, i: nat)
    requires Sized(m) && !Falls(m, act, c) && !TakesAddress(m, c)
    ensures OldStep(m, Marking(m, act, i), MarkHandle(handle), Lift(c)) == Lift(OldStep(m, act, handle, c))
  {
    hide Caught, InPlace;
    if c.Running? && c.pc < |m.ops| {
      var a := act(c.pc, c.data);
      if a.Throw? {
        LiftCaught(m, c.pc, c.frames, a.caught, a.data);
      }
    }
  }

  lemma LiftFalls<D>(m: Code, act: (nat, D) -> Act<D>, c: Config<D>, i: nat)
    requires Sized(m)
    ensures Falls(m, Marking(m, act, i), Lift(c)) == Falls(m, act, c) && TakesAddress(m, Lift(c)) == TakesAddress(m, c)
  {
    hide InPlace;
  }

  /** Until something falls out, the marked run is the run. */
  lemma {:induction false} LiftRun<D>(m: Code, act: (nat, D) -> Act<D>, handle: Handle<D>, c: Config<D>, i: nat, n: nat)
    requires Sized(m) && Calm(m, act, handle, c, n)
    ensures OldRun(m, Marking(m, act, i), MarkHandle(handle), Lift(c), n) == Lift(OldRun(m, act, handle, c, n))
    decreases n
  {
    hide OldStep, Lift, Marking, MarkHandle, Calm, Falls, TakesAddress;
    if n > 0 {
      CalmStep(m, act, handle, c, n);
      LiftStep(m, act, handle, c, i);
      LiftRun(m, act, handle, OldStep(m, act, handle, c), i, n - 1);
    }
  }

  lemma LiftCalm<D>(m: Code, act: (nat, D) -> Act<D>, handle: Handle<D>, c: Config<D>, i: nat, n: nat)
    requires Sized(m) && Calm(m, act, handle, c, n)
    ensures Calm(m, Marking(m, act, i), MarkHandle(handle), Lift(c), n)
  {
    hide OldRun, Lift, Marking, MarkHandle, Falls, TakesAddress;
    forall k: nat | k < n
      ensures var d := OldRun(m, Marking(m, act, i), MarkHandle(handle), Lift(c), k);
              !Falls(m, Marking(m, act, i), d) && !TakesAddress(m, d)
    {
      LiftRun(m, act, handle, c, i, k);
      LiftFalls(m, act, OldRun(m, act, handle, c, k), i);
    }
  }

  // ---------- after falling out ----------

  /** An instruction whose effects matter. */
  predicate Acting(m: Code, j: nat)
    requires Sized(m)
  {
    j < |m.ops| && !m.onAddress[j] && !m.ops[j].StoreReturn? && !m.ops[j].Jsr? && !m.ops[j].Ret?
  }

  /** Steps of the old code that have no effects: stores of return addresses, calls and returns. */
  function QuietStep<D>(m: Code, c: Config<D>): Option<Config<D>>
    requires Sized(m)
  {
    if c.Running? && c.pc < |m.ops| && (m.ops[c.pc].StoreReturn? || m.ops[c.pc].Jsr? || m.ops[c.pc].Ret?)
    then Some(OldStep(m, (i, d) => Fall(d), Thrower(c.data), c)) else None
  }

  function QuietRun<D>(m: Code, c: Config<D>, k: nat): Option<Config<D>>
    requires Sized(m)
    decreases k
  {
    if k == 0 then Some(c)
    else if QuietStep(m, c).None? then None
    else QuietRun(m, QuietStep(m, c).value, k - 1)
  }

  lemma QuietStepIs<D>(m: Code, act: (nat, D) -> Act<D>, handle: Handle<D>, c: Config<D>)
    requires Sized(m) && QuietStep(m, c).Some?
    ensures OldStep(m, act, handle, c) == QuietStep(m, c).value
  {
    hide OldAct, GoTo;
  }

  lemma {:induction false} QuietRuns<D>(m: Code, act: (nat, D) -> Act<D>, handle: Handle<D>, c: Config<D>, k: nat)
    requires Sized(m) && QuietRun(m, c, k).Some?
    ensures OldRun(m, act, handle, c, k) == QuietRun(m, c, k).value
    decreases k
  {
    hide OldStep, QuietStep;
    if k > 0 {
      QuietStepIs(m, act, handle, c);
      QuietRuns(m, act, handle, OldStep(m, act, handle, c), k - 1);
    }
  }

  /** Where steps of the new code without effects lead, which are the gotos that stand for jsr and ret. */
  function Gotos(code: seq<NewInstr>, pc: int, k: nat): Option<int>
    decreases k
  {
    if k == 0 then Some(pc)
    else if pc < 0 || Fetch(code, pc).None? || !Fetch(code, pc).value.op.PlainGoto? then None
    else Gotos(code, pc + Fetch(code, pc).value.op.displacement, k - 1)
  }

  lemma {:induction false} GotosRun<D>(m: Code, act: (nat, D) -> Act<D>, code: seq<NewInstr>, table: seq<CatchFrame>,
                                       pc: int, k: nat, data: D)
    requires Sized(m) && Gotos(code, pc, k).Some?
    ensures NewRun(m, act, code, table, NewRunning(pc, data), k) == NewRunning(Gotos(code, pc, k).value, data)
    decreases k
  {
    if k > 0 {
      var d := Fetch(code, pc).value.op.displacement;
      assert NewStep(m, act, code, table, NewRunning(pc, data)) == NewRunning(pc + d, data);
      hide NewStep;
      GotosRun(m, act, code, table, pc + d, k - 1, data);
    }
  }

  function SourceOf(op: NewOp): Option<nat> {
    match op
    case Copied(i) => Some(i)
    case Branching(i, _) => Some(i)
    case Switching(i, _) => Some(i)
    case PlainGoto(_) => None
  }

  /** At this offset stands nothing, or a copy of another instruction than `j`. */
  predicate Elsewhere(code: seq<NewInstr>, pc: int, j: nat) {
    pc < 0 || Fetch(code, pc).None?
    || (SourceOf(Fetch(code, pc).value.op).Some? && SourceOf(Fetch(code, pc).value.op) != Some(j))
  }

  /** Behind every copy of instruction `i`, the next effects in the new code are not those of `j`. */
  ghost predicate ElsewhereAfter(m: Code, refs: seq<CodeRef>, code: seq<NewInstr>, i: nat, j: nat)
    requires Numbered(m, refs)
  {
    forall q: nat :: q < |refs| && refs[q].inumber == i ==> GoesElsewhere(code, Offset(m, refs, q + 1), j)
  }

  ghost predicate GoesElsewhere(code: seq<NewInstr>, pc: int, j: nat) {
    exists k: nat :: Gotos(code, pc, k).Some? && Elsewhere(code, Gotos(code, pc, k).value, j)
  }

  lemma OldThrows<D>(m: Code, act: (nat, (D, nat)) -> Act<(D, nat)>, handle: Handle<(D, nat)>, c: Config<(D, nat)>,
                     x: (D, nat))
    requires Sized(m) && c.Running? && Acting(m, c.pc) && act(c.pc, c.data) == Throw(_ => false, x)
    ensures OldStep(m, act, handle, c) == Ended(Uncaught(x))
  {
    hide OldHandler;
    NothingCaught(m, c.pc, _ => false, |m.handlers|);
  }

  lemma {:induction false} NothingNewCaught(table: seq<CatchFrame>, pc: nat, caught: nat -> bool)
    requires forall kind :: !caught(kind)
    ensures NewHandler(table, pc, caught) == None
  {
    if table != [] {
      NothingNewCaught(table[1..], pc, caught);
    }
  }

  lemma NewThrows<D>(m: Code, act: (nat, D) -> Act<D>, instr: NewInstr, table: seq<CatchFrame>, pc: int, data: D, x: D)
    requires Sized(m) && SourceOf(instr.op).Some? && act(SourceOf(instr.op).value, data) == Throw(_ => false, x)
    ensures NewStepAt(m, act, instr, table, NewRunning(pc, data)) == NewEnded(Uncaught(x))
  {
    hide NewHandler;
    NothingNewCaught(table, instr.pc, _ => false);
  }

  lemma {:induction false} OldRunOn<D>(m: Code, act: (nat, D) -> Act<D>, handle: Handle<D>, c: Config<D>, n: nat,
                                       o: Outcome<D>)
    requires Sized(m) && OldEnds(m, act, handle, OldRun(m, act, handle, c, n), o)
    ensures OldEnds(m, act, handle, c, o)
    decreases n
  {
    hide OldStep, OldEnds;
    if n > 0 {
      OldRunOn(m, act, handle, OldStep(m, act, handle, c), n - 1, o);
      OldEndsStep(m, act, handle, c, o);
    }
  }

  lemma {:induction false} NewRunOn<D>(m: Code, act: (nat, D) -> Act<D>, code: seq<NewInstr>, table: seq<CatchFrame>,
                                       c: NewConfig<D>,
                                       n: nat, o: Outcome<D>)
    requires Sized(m) && NewEnds(m, act, code, table, NewRun(m, act, code, table, c, n), o)
    ensures NewEnds(m, act, code, table, c, o)
    decreases n
  {
    hide NewStep, NewEnds;
    if n > 0 {
      NewRunOn(m, act, code, table, NewStep(m, act, code, table, c), n - 1, o);
      NewEndsStep(m, act, code, table, c, o);
    }
  }

  /** The old code falls out, and the next instruction with effects throws with mark 2. */
  lemma OldAfter<D>(m: Code, act: (nat, D) -> Act<D>, handle: Handle<D>, c: Config<D>, k: nat, e: Config<(D, nat)>)
    requires Sized(m) && Falls(m, act, c) && !TakesAddress(m, c)
    requires QuietRun(m, Running(c.pc + 1, c.frames, c.held, (act(c.pc, c.data).data, 1)), k) == Some(e)
    requires e.Running? && Acting(m, e.pc) && e.data == (act(c.pc, c.data).data, 1)
    ensures OldEnds(m, Marking(m, act, e.pc), MarkHandle(handle), Lift(c), Uncaught((act(c.pc, c.data).data, 2)))
  {
    hide InPlace, OldEnds, QuietRun, Acting;
    var x := act(c.pc, c.data).data;
    var mark, mh := Marking(m, act, e.pc), MarkHandle(handle);
    var d: Config<(D, nat)> := Running(c.pc + 1, c.frames, c.held, (x, 1));
    assert OldStep(m, mark, mh, Lift(c)) == d;
    OldThrows(m, mark, mh, e, (x, 2));
    hide OldStep;
    OldEndsNow(m, mark, mh, Uncaught((x, 2)));
    OldEndsStep(m, mark, mh, e, Uncaught((x, 2)));
    QuietRuns(m, mark, mh, d, k);
    OldRunOn(m, mark, mh, d, k, Uncaught((x, 2)));
    OldEndsStep(m, mark, mh, Lift(c), Uncaught((x, 2)));
  }

  /** The new code falls to what follows the copy, and gets to another instruction, which throws with mark
      3, or to nothing. */
  lemma NewAfter<D>(m: Code, refs: seq<CodeRef>, next: map<nat, nat>, table: seq<CatchFrame>, act: (nat, D) -> Act<D>,
                    c: Config<D>, q: nat, j: nat) returns (o: Outcome<(D, nat)>)
    requires Written(m, refs, next, table) && Falls(m, act, c) && At(refs, c, q)
    requires ElsewhereAfter(m, refs, Emitted(m, refs, next, |refs|), c.pc, j)
    ensures o == Stuck || o == Uncaught((act(c.pc, c.data).data, 3))
    ensures NewEnds(m, Marking(m, act, j), Emitted(m, refs, next, |refs|), table,
                    NewRunning(Offset(m, refs, q), (c.data, 0)), o)
  {
    WrittenGenerated(m, refs, next, table);
    var mark, code, x := Marking(m, act, j), Emitted(m, refs, next, |refs|), act(c.pc, c.data).data;
    var pc := Offset(m, refs, q + 1);
    var now := NewRunning(Offset(m, refs, q), (c.data, 0));
    assert NewStep(m, mark, code, table, now) == NewRunning(pc, (x, 1)) by {
      CopyFalls(m, refs, next, table, act, c, q, j);
    }
    assert GoesElsewhere(code, pc, j);
    hide Written, ElsewhereAfter, Emitted, Gotos, Generated;
    var k: nat :| Gotos(code, pc, k).Some? && Elsewhere(code, Gotos(code, pc, k).value, j);
    o := ElsewhereEnds(m, act, code, table, Gotos(code, pc, k).value, j, x);
    GotosRun(m, mark, code, table, pc, k, (x, 1));
    hide NewStep, NewEnds;
    NewRunOn(m, mark, code, table, NewRunning(pc, (x, 1)), k, o);
    NewEndsStep(m, mark, code, table, now, o);
  }

  lemma ElsewhereEnds<D>(m: Code, act: (nat, D) -> Act<D>, code: seq<NewInstr>, table: seq<CatchFrame>, pc: int,
                         j: nat, x: D) returns (o: Outcome<(D, nat)>)
    requires Sized(m) && Elsewhere(code, pc, j)
    ensures o == Stuck || o == Uncaught((x, 3))
    ensures NewEnds(m, Marking(m, act, j), code, table, NewRunning(pc, (x, 1)), o)
  {
    var mark, c := Marking(m, act, j), NewRunning(pc, (x, 1));
    if pc < 0 || Fetch(code, pc).None? {
      o := Stuck;
    } else {
      o := Uncaught((x, 3));
      NewThrows(m, mark, Fetch(code, pc).value, table, pc, (x, 1), (x, 3));
    }
    hide NewStepAt, Marking;
    assert NewStep(m, mark, code, table, c) == NewEnded(o);
    hide NewStep, NewEnds;
    NewEndsNow(m, mark, code, table, o);
    NewEndsStep(m, mark, code, table, c, o);
  }

  lemma AllPositive(m: Code)
    requires Sized(m) && Structured(Cut(m))
    ensures Positive(m)
  {}

  /** The copy of an instruction that falls goes to the offset behind it. */
  lemma CopyFalls<D>(m: Code, refs: seq<CodeRef>, next: map<nat, nat>, table: seq<CatchFrame>,
                     act: (nat, D) -> Act<D>, c: Config<D>, q: nat, j: nat)
    requires Written(m, refs, next, table) && Falls(m, act, c) && At(refs, c, q) && Generated(Cut(m), refs, next, table)
    ensures NewStep(m, Marking(m, act, j), Emitted(m, refs, next, |refs|), table,
            NewRunning(Offset(m, refs, q), (c.data, 0)))
         == NewRunning(Offset(m, refs, q + 1), (act(c.pc, c.data).data, 1))
  {
    hide Refs, EndsKnown, TableFor, ShortJumpsFit, Offset, Emitted, Fetch, Structured, InPlace, Displacement;
    hide Resolvable;
    FlagOfCopy(Cut(m), refs, next, q);
    AllPositive(m);
    FetchEmitted(m, refs, next, q, |refs|);
    assert Resolvable(m, refs, next, q);
  }

  /** After `n` steps the run falls out, and `e` is where it next has an instruction with effects, the data
      being marked. */
  ghost predicate FellOut<D>(m: Code, act: (nat, D) -> Act<D>, handle: Handle<D>, start: Config<D>, n: nat, k: nat,
                             e: Config<(D, nat)>)
    requires Sized(m)
  {
    var c := OldRun(m, act, handle, start, n);
    && Calm(m, act, handle, start, n) && Falls(m, act, c) && !TakesAddress(m, c)
    && QuietRun(m, Running(c.pc + 1, c.frames, c.held, (act(c.pc, c.data).data, 1)), k) == Some(e)
    && e.Running? && Acting(m, e.pc) && e.data == (act(c.pc, c.data).data, 1)
  }

  /** The old code ends in a way that the new code does not. */
  ghost predicate ToldApart<D(!new)>(m: Code, act: (nat, D) -> Act<D>, handle: Handle<D>, code: seq<NewInstr>,
                                     table: seq<CatchFrame>, data: D)
    requires Sized(m)
  {
    exists o :: OldEnds(m, act, handle, Running(0, [], [], data), o)
                && !NewEnds(m, act, code, table, NewRunning(0, data), o)
  }

  lemma ToldApartBy<D(!new)>(m: Code, act: (nat, D) -> Act<D>, handle: Handle<D>, code: seq<NewInstr>,
                             table: seq<CatchFrame>, data: D, o: Outcome<D>, other: Outcome<D>)
    requires Sized(m) && OldEnds(m, act, handle, Running(0, [], [], data), o)
    requires NewEnds(m, act, code, table, NewRunning(0, data), other) && o != other
    ensures ToldApart(m, act, handle, code, table, data)
  {
    hide OldEnds, NewEnds;
    if NewEnds(m, act, code, table, NewRunning(0, data), o) {
      OneOutcome(m, act, code, table, NewRunning(0, data), o, other);
    }
  }

  /** If a run of the old code falls through out of a subroutine, and the next instruction with effects is
      another one in the new code, or there is none, then with some effects the two end differently. */
  lemma FallingOutShows<D(!new)>(m: Code, refs: seq<CodeRef>, next: map<nat, nat>, table: seq<CatchFrame>,
                                 act: (nat, D) -> Act<D>, handle: Handle<D>, data: D, n: nat, k: nat,
                                 e: Config<(D, nat)>)
    requires Written(m, refs, next, table) && FellOut(m, act, handle, Running(0, [], [], data), n, k, e)
    requires ElsewhereAfter(m, refs, Emitted(m, refs, next, |refs|),
                            OldRun(m, act, handle, Running(0, [], [], data), n).pc, e.pc)
    ensures ToldApart(m, Marking(m, act, e.pc), MarkHandle(handle), Emitted(m, refs, next, |refs|), table, (data, 0))
  {
    var start := Running(0, [], [], data);
    assert Lift(start) == Running(0, [], [], (data, 0));
    hide Lift, Marking, MarkHandle, OldEnds, NewEnds, ToldApart;
    OldShows(m, act, handle, start, n, k, e);
    var o := NewShows(m, refs, next, table, act, handle, data, n, k, e);
    hide Written, FellOut, ElsewhereAfter, Emitted, OldRun;
    ToldApartBy(m, Marking(m, act, e.pc), MarkHandle(handle), Emitted(m, refs, next, |refs|), table, (data, 0),
                Uncaught((e.data.0, 2)), o);
  }

  lemma OldShows<D>(m: Code, act: (nat, D) -> Act<D>, handle: Handle<D>, start: Config<D>, n: nat, k: nat,
                    e: Config<(D, nat)>)
    requires Sized(m) && FellOut(m, act, handle, start, n, k, e)
    ensures e.Running?
    ensures OldEnds(m, Marking(m, act, e.pc), MarkHandle(handle), Lift(start), Uncaught((e.data.0, 2)))
  {
    hide OldEnds, QuietRun, Acting, Calm, OldRun;
    var c := OldRun(m, act, handle, start, n);
    LiftRun(m, act, handle, start, e.pc, n);
    OldAfter(m, act, handle, c, k, e);
    OldRunOn(m, Marking(m, act, e.pc), MarkHandle(handle), Lift(start), n, Uncaught((e.data.0, 2)));
  }

  lemma NewShows<D>(m: Code, refs: seq<CodeRef>, next: map<nat, nat>, table: seq<CatchFrame>, act: (nat, D) -> Act<D>,
                    handle: Handle<D>, data: D, n: nat, k: nat, e: Config<(D, nat)>) returns (o: Outcome<(D, nat)>)
    requires Written(m, refs, next, table) && FellOut(m, act, handle, Running(0, [], [], data), n, k, e)
    requires ElsewhereAfter(m, refs, Emitted(m, refs, next, |refs|),
                            OldRun(m, act, handle, Running(0, [], [], data), n).pc, e.pc)
    ensures o == Stuck || o == Uncaught((e.data.0, 3))
    ensures NewEnds(m, Marking(m, act, e.pc), Emitted(m, refs, next, |refs|), table, NewRunning(0, (data, 0)), o)
  {
    var start := Running(0, [], [], data);
    var c := OldRun(m, act, handle, start, n);
    WrittenGenerated(m, refs, next, table);
    EntryAt(Cut(m), refs, next, (data, 0));
    hide Refs, EndsKnown, Structured, AllResolvable, TableFor, ShortJumpsFit, Emitted, Calm, NewEnds, NewRun, OldRun;
    hide ElsewhereAfter, QuietRun, Acting;
    var j := e.pc;
    var mark, mh := Marking(m, act, j), MarkHandle(handle);
    LiftRun(m, act, handle, start, j, n);
    LiftCalm(m, act, handle, start, j, n);
    var q, steps := CalmReaches(m, refs, next, table, mark, mh, Lift(start), 0, n);
    SameOffset(m, refs, q);
    o := NewAfter(m, refs, next, table, act, c, q, j);
    NewRunOn(m, mark, Emitted(m, refs, next, |refs|), table, NewRunning(0, (data, 0)), steps, o);
  }

  // ---------- the method that falls out of a subroutine ----------

  /** The theorem applies to it: 6 acts, and behind the copy of 5 the new code has a copy of 1. */
  lemma ExampleWritten(m: Code)
    requires m == FallingOut.Example()
    ensures Written(m, FallingOut.List(), map[0 := 5], []) && Acting(m, 6)
    ensures ElsewhereAfter(m, FallingOut.List(), Emitted(m, FallingOut.List(), map[0 := 5], 8), 5, 6)
  {
    hide Refs, Body, Offset, Resolvable, TargetPlace, StructuredAt;
    FallingOut.ExampleResolvable(m);
    ExampleCut(m);
    ExampleJumps(m);
    FallingOut.ListParts();
    OnlyCopy();
    ListElsewhere(m, FallingOut.List(), map[0 := 5]);
  }

  lemma OnlyCopy()
    ensures forall q :: 0 <= q < 8 && FallingOut.List()[q].inumber == 5 ==> q == 3
  {}

  lemma ListElsewhere(m: Code, refs: seq<CodeRef>, next: map<nat, nat>)
    requires m == FallingOut.Example() && AllResolvable(m, refs, next) && FallingOut.StartsAs(refs)
    requires forall q :: 0 <= q < 8 && refs[q].inumber == 5 ==> q == 3
    ensures ElsewhereAfter(m, refs, Emitted(m, refs, next, 8), 5, 6)
  {
    FallingOut.ExampleOffsets(m, refs);
    FallingOut.ListInstrs(m, refs, next);
    FallingOut.PositiveExample(m);
    hide FallingOut.Example, Emitted, Fetch, Offset, AllResolvable, Instr;
    FetchEmitted(m, refs, next, 5, 8);
    var code := Emitted(m, refs, next, 8);
    assert Gotos(code, 4, 0) == Some(4) && Elsewhere(code, 4, 6);
    assert GoesElsewhere(code, Offset(m, refs, 4), 6);
  }

  lemma ExampleJumps(m: Code)
    requires m == FallingOut.Example() && Sized(m) && AllResolvable(m, FallingOut.List(), map[0 := 5])
    ensures ShortJumpsFit(m, FallingOut.List(), map[0 := 5])
  {
    FallingOut.ListParts();
    SmallJumps(m, FallingOut.List(), map[0 := 5]);
  }

  lemma SmallJumps(m: Code, refs: seq<CodeRef>, next: map<nat, nat>)
    requires m == FallingOut.Example() && AllResolvable(m, refs, next) && |refs| == 8
    ensures ShortJumpsFit(m, refs, next)
  {
    forall p | 0 <= p <= |refs|
      ensures Offset(m, refs, p) <= 100
    {
      ShortCode(m, refs, p);
    }
    hide Offset, Find, Places, FallingOut.Example;
    forall p | 0 <= p < |refs| && refs[p].flag != Skipped && ShortJump(m, refs, next, p).Some?
      ensures -32768 <= ShortJump(m, refs, next, p).value < 32768
    {
      assert Resolvable(m, refs, next, p);
    }
  }

  lemma {:induction false} ShortCode(m: Code, refs: seq<CodeRef>, p: nat)
    requires m == FallingOut.Example() && Numbered(m, refs) && p <= |refs| <= 8
    ensures Offset(m, refs, p) <= 4 * p
  {
    if p > 0 {
      ShortCode(m, refs, p - 1);
    }
  }

  lemma ExampleCut(m: Code)
    requires m == FallingOut.Example()
    ensures Sized(m) && Structured(Cut(m))
  {
    hide StructuredAt;
    var r := Cut(m);
    forall i | 0 <= i < |r.ops|
      ensures StructuredAt(r, i)
    {
      CutStructured(m, i);
    }
    assert OneRet(r) by { CutOneRet(m); }
  }

  lemma CutOneRet(m: Code)
    requires m == FallingOut.Example()
    ensures Sized(m) && OneRet(Cut(m))
  {
    hide InPlace;
    var r := Cut(m);
    assert forall i :: 0 <= i < 8 && r.ops[i].Ret? ==> i == 7;
  }

  lemma CutStructured(m: Code, i: nat)
    requires m == FallingOut.Example() && i < 8
    ensures Sized(m) && StructuredAt(Cut(m), i)
  {
    FallingOut.OnlyFault();
    if i == 5 {
      assert Cut(m).ops[5] == Goto(7);
    } else {
      SameStructured(m, i);
    }
  }

  lemma SameStructured(m: Code, i: nat)
    requires Sized(m) && i < |m.ops| && StructuredAt(m, i)
    ensures StructuredAt(Cut(m), i)
  {}
}
