/** Running a method before and after its subroutines are inlined: the same outcome, whatever its
    instructions compute. */
module InlineRuns {
  import opened Wrappers
  import opened Subroutines
  import opened InlinedList
  import opened InlineJsr
  import opened NewCode
  import opened EmittedCode
  import opened ExceptionTable
  import opened CodeOffsets

  /** What an instruction does to the data, and where it goes on. */
  datatype Act<D> = Fall(data: D) | Take(branch: nat, data: D) | Throw(caught: nat -> bool, data: D) | Return(data: D)

  datatype Outcome<D> = Finished(data: D) | Uncaught(data: D) | Stuck

  /** A run of the old code keeps the jsr instructions whose subroutines have not returned, and those
      whose return addresses are on the operand stack, which is otherwise part of the data. */
  datatype Config<D> = Running(pc: nat, frames: seq<nat>, held: seq<nat>, data: D) | Ended(outcome: Outcome<D>)

  /** What an instruction does that has return addresses among its operands: to the data, and to the
      addresses on the stack. */
  type Handle<!D> = (nat, D, seq<nat>) -> (Act<D>, seq<nat>)

  datatype NewConfig<D> = NewRunning(pc: int, data: D) | NewEnded(outcome: Outcome<D>)

  // ---------- the old code ----------

  /** Going to `t` abandons the calls that `t` is not in. */
  function GoTo<D>(m: Code, t: nat, frames: seq<nat>, held: seq<nat>, data: D): Config<D>
    requires Sized(m)
  {
    if t < |m.ops| && |m.chains[t]| <= |frames| then Running(t, frames[..|m.chains[t]|], held, data) else Ended(Stuck)
  }

  /** A handler starts with nothing but the exception on the stack. */
  function Caught<D>(m: Code, i: nat, frames: seq<nat>, caught: nat -> bool, data: D): Config<D>
    requires Sized(m)
  {
    var k := OldHandler(m, i, caught, |m.handlers|);
    if k.Some? then GoTo(m, m.handlers[k.value].handler, frames, [], data) else Ended(Uncaught(data))
  }

  function Branch<D>(m: Code, op: Op, branch: nat, frames: seq<nat>, held: seq<nat>, data: D): Config<D>
    requires Sized(m)
  {
    match op
    case If(t) => GoTo(m, t, frames, held, data)
    case Goto(t) => GoTo(m, t, frames, held, data)
    case Switch(ts) => if branch < |ts| then GoTo(m, ts[branch], frames, held, data) else Ended(Stuck)
    case _ => Ended(Stuck)
  }

  function OldAct<D>(m: Code, i: nat, frames: seq<nat>, held: seq<nat>, a: Act<D>): Config<D>
    requires Sized(m) && i < |m.ops|
  {
    match a
    case Throw(caught, data) => Caught(m, i, frames, caught, data)
    case Fall(data) => if m.ops[i].Plain? || m.ops[i].If? then Running(i + 1, frames, held, data) else Ended(Stuck)
    case Return(data) => if m.ops[i].Exit? then Ended(Finished(data)) else Ended(Stuck)
    case Take(branch, data) => Branch(m, m.ops[i], branch, frames, held, data)
  }

  function ButLast(s: seq<nat>): seq<nat> {
    if s == [] then [] else s[..|s| - 1]
  }

  /** One step: a jsr pushes its return address, goes to its target and is remembered, a store takes
      the address from the stack, and a ret goes back to after the last jsr. */
  function OldStep<D>(m: Code, act: (nat, D) -> Act<D>, handle: Handle<D>, c: Config<D>): Config<D>
    requires Sized(m)
  {
    if c.Ended? then c
    else if c.pc >= |m.ops| then Ended(Stuck)
    else
      var i, frames, held := c.pc, c.frames, c.held;
      match m.ops[i]
      case StoreReturn => Running(i + 1, frames, ButLast(held), c.data)
      case Jsr(t, comesBack) =>
        if comesBack then Running(t, frames + [i], held + [i], c.data) else GoTo(m, t, frames, held + [i], c.data)
      case Ret =>
        if frames == [] then Ended(Stuck) else Running(frames[|frames| - 1] + 1, frames[..|frames| - 1], held, c.data)
      case _ =>
        if m.onAddress[i] then
          var (a, after) := handle(i, c.data, held);
          OldAct(m, i, frames, after, a)
        else OldAct(m, i, frames, held, act(i, c.data))
  }

  /** The next step is up to an instruction that has a return address among its operands. */
  predicate TakesAddress<D>(m: Code, c: Config<D>)
    requires Sized(m)
  {
    c.Running? && c.pc < |m.ops| && m.onAddress[c.pc]
    && !m.ops[c.pc].StoreReturn? && !m.ops[c.pc].Jsr? && !m.ops[c.pc].Ret?
  }

  // Single steps.

  lemma FallsOn<D>(m: Code, act: (nat, D) -> Act<D>, handle: Handle<D>, c: Config<D>)
    requires Sized(m) && c.Running? && c.pc < |m.ops| && (m.ops[c.pc].Plain? || m.ops[c.pc].If?) && !m.onAddress[c.pc]
    requires act(c.pc, c.data) == Fall(c.data)
    ensures OldStep(m, act, handle, c) == Running(c.pc + 1, c.frames, c.held, c.data)
  {}

  lemma Stores<D>(m: Code, act: (nat, D) -> Act<D>, handle: Handle<D>, c: Config<D>)
    requires Sized(m) && c.Running? && c.pc < |m.ops| && m.ops[c.pc].StoreReturn?
    ensures OldStep(m, act, handle, c) == Running(c.pc + 1, c.frames, ButLast(c.held), c.data)
  {}

  lemma Returns<D>(m: Code, act: (nat, D) -> Act<D>, handle: Handle<D>, c: Config<D>)
    requires Sized(m) && c.Running? && c.pc < |m.ops| && m.ops[c.pc].Exit? && !m.onAddress[c.pc]
    requires act(c.pc, c.data) == Return(c.data)
    ensures OldStep(m, act, handle, c) == Ended(Finished(c.data))
  {}

  lemma ComesBack<D>(m: Code, act: (nat, D) -> Act<D>, handle: Handle<D>, c: Config<D>)
    requires Sized(m) && c.Running? && c.pc < |m.ops| && m.ops[c.pc].Ret? && c.frames != []
    ensures OldStep(m, act, handle, c) == Running(c.frames[|c.frames| - 1] + 1, c.frames[..|c.frames| - 1], c.held,
            c.data)
  {}

  lemma CallStep<D>(m: Code, act: (nat, D) -> Act<D>, handle: Handle<D>, c: Config<D>)
    requires Sized(m) && c.Running? && c.pc < |m.ops| && m.ops[c.pc].Jsr?
    ensures OldStep(m, act, handle, c) ==
            if m.ops[c.pc].comesBack then Running(m.ops[c.pc].target, c.frames + [c.pc], c.held + [c.pc], c.data)
            else GoTo(m, m.ops[c.pc].target, c.frames, c.held + [c.pc], c.data)
  {}

  // ---------- the new code ----------

  function NewCaught<D>(table: seq<CatchFrame>, pc: nat, caught: nat -> bool, data: D): NewConfig<D> {
    var h := NewHandler(table, pc, caught);
    if h.Some? then NewRunning(h.value, data) else NewEnded(Uncaught(data))
  }

  /** One step of the new code, which knows only offsets, displacements and its exception table. */
  function NewStep<D>(m: Code, act: (nat, D) -> Act<D>, code: seq<NewInstr>, table: seq<CatchFrame>,
                      c: NewConfig<D>): NewConfig<D>
    requires Sized(m)
  {
    if c.NewEnded? then c
    else
      var instr := if c.pc >= 0 then Fetch(code, c.pc) else None;
      if instr.None? then NewEnded(Stuck)
      else NewStepAt(m, act, instr.value, table, c)
  }

  function NewStepAt<D>(m: Code, act: (nat, D) -> Act<D>, instr: NewInstr, table: seq<CatchFrame>,
                        c: NewConfig<D>): NewConfig<D>
    requires Sized(m) && c.NewRunning?
  {
    match instr.op
    case PlainGoto(displacement) => NewRunning(c.pc + displacement, c.data)
    case Copied(i) =>
      (match act(i, c.data)
       case Throw(caught, data) => NewCaught(table, instr.pc, caught, data)
       case Fall(data) => if i < |m.ops| && m.ops[i].Plain? then NewRunning(c.pc + instr.size, data)
         else NewEnded(Stuck)
       case Return(data) => if i < |m.ops| && m.ops[i].Exit? then NewEnded(Finished(data)) else NewEnded(Stuck)
       case Take(_, _) => NewEnded(Stuck))
    case Branching(i, displacement) =>
      (match act(i, c.data)
       case Throw(caught, data) => NewCaught(table, instr.pc, caught, data)
       case Fall(data) => if i < |m.ops| && m.ops[i].If? then NewRunning(c.pc + instr.size, data) else NewEnded(Stuck)
       case Return(_) => NewEnded(Stuck)
       case Take(_, data) => NewRunning(c.pc + displacement, data))
    case Switching(i, displacements) =>
      (match act(i, c.data)
       case Throw(caught, data) => NewCaught(table, instr.pc, caught, data)
       case Fall(_) => NewEnded(Stuck)
       case Return(_) => NewEnded(Stuck)
       case Take(branch, data) =>
         if branch < |displacements| then NewRunning(c.pc + displacements[branch], data) else NewEnded(Stuck))
  }

  // ---------- the simulation ----------

  /** The jsr instructions that led to a call. */
  function Frames(refs: seq<CodeRef>, s: Subr): (r: seq<nat>)
    ensures |r| == Depth(s)
  {
    if s.Top? then []
    else Frames(refs, s.parent) + [if s.caller < |refs| then refs[s.caller].inumber else 0]
  }

  lemma {:induction false} FramesOfAncestor(refs: seq<CodeRef>, s: Subr, d: nat)
    requires d <= Depth(s)
    ensures Frames(refs, Ancestor(s, d)) == Frames(refs, s)[..d]
  {
    if d == Depth(s) {
    } else {
      FramesOfAncestor(refs, s.parent, d);
    }
  }

  /** The old run is at an instruction, for certain calls, whose copy stands at place `p`. */
  predicate At<D>(refs: seq<CodeRef>, c: Config<D>, p: nat) {
    c.Running? && p < |refs| && refs[p].inumber == c.pc && Frames(refs, refs[p].sub) == c.frames
  }

  /** Both runs have ended alike, or the new one is at a copy of the old one's instruction. */
  ghost predicate Related<D>(m: Code, refs: seq<CodeRef>, c: Config<D>, n: NewConfig<D>)
    requires Numbered(m, refs)
  {
    if c.Ended? then n == NewEnded(c.outcome)
    else exists q: nat :: At(refs, c, q) && n == NewRunning(Offset(m, refs, q), c.data)
  }

  lemma RelatedAt<D>(m: Code, refs: seq<CodeRef>, c: Config<D>, q: nat)
    requires Numbered(m, refs) && At(refs, c, q)
    ensures Related(m, refs, c, NewRunning(Offset(m, refs, q), c.data))
  {}

  /** Everything that has been generated for a method. */
  ghost predicate Generated(m: Code, refs: seq<CodeRef>, next: map<nat, nat>, table: seq<CatchFrame>) {
    Built(m, refs, next) && AllResolvable(m, refs, next) && ShortJumpsFit(m, refs, next)
      && TableFor(m, refs, table, |m.handlers|)
  }

  /** A jump out of subroutines arrives at the eligible copy, in the calls that remain. */
  lemma GoToArrives<D>(m: Code, refs: seq<CodeRef>, next: map<nat, nat>, c: Config<D>, p: nat, t: nat, held: seq<nat>,
                       data: D)
      returns (q: nat)
    requires Built(m, refs, next) && At(refs, c, p) && Outward(m, c.pc, t)
    ensures Found(m, refs, refs[p].sub, t) && q == TargetPlace(refs, refs[p].sub, t).value
    ensures At(refs, GoTo(m, t, c.frames, held, data), q) && GoTo(m, t, c.frames, held, data).data == data
  {
    hide Refs, EndsKnown, Structured, TargetPlace, Encloses;
    q := OutwardFound(m, refs, next, p, t);
    FramesOfAncestor(refs, refs[p].sub, |m.chains[t]|);
  }

  lemma FallsThrough<D>(m: Code, refs: seq<CodeRef>, next: map<nat, nat>, c: Config<D>, p: nat, held: seq<nat>, data: D)
    requires Built(m, refs, next) && At(refs, c, p) && c.pc < |m.ops| && !Calls(m, c.pc) && InPlace(m, c.pc, c.pc + 1)
    ensures At(refs, Running(c.pc + 1, c.frames, held, data), p + 1)
  {
    hide Refs, EndsKnown, Structured, StructuredAt;
    BuiltAt(m, refs, next, p);
    NextCopy(m, refs, p, c.pc);
  }

  /** A dropped instruction is a silent step to the next place. */
  lemma SilentStep<D>(m: Code, refs: seq<CodeRef>, next: map<nat, nat>, act: (nat, D) -> Act<D>, handle: Handle<D>,
                      c: Config<D>, p: nat)
    requires Built(m, refs, next) && At(refs, c, p) && refs[p].flag == Skipped
    ensures var d := OldStep(m, act, handle, c);
            At(refs, d, p + 1) && d.data == c.data && Offset(m, refs, p + 1) == Offset(m, refs, p)
  {
    hide Refs, EndsKnown, Structured, InPlace, Outward;
    BuiltAt(m, refs, next, p);
    FlagOfCopy(m, refs, next, p);
    SkippedOffset(m, refs, p);
    hide OldStep, Offset, At;
    AtPlace(refs, c, p);
    match m.ops[c.pc] {
      case StoreReturn =>
        Stores(m, act, handle, c);
        FallsThrough(m, refs, next, c, p, ButLast(c.held), c.data);
      case Jsr(t, comesBack) =>
        CallStep(m, act, handle, c);
        var q := CallFound(m, refs, next, p, c.pc);
        CalledAt(m, refs, c, p, t);
      case Ret =>
        ReturnFound(m, refs, next, p);
        ReturnedAt(m, refs, c, p, p + 1);
        ComesBack(m, act, handle, c);
      case _ => assert false;
    }
  }

  /** Behind a jsr's copy stand those made for its call. */
  lemma CalledAt<D>(m: Code, refs: seq<CodeRef>, c: Config<D>, p: nat, t: nat)
    requires At(refs, c, p) && p + 1 < |refs| && refs[p + 1].inumber == t && refs[p + 1].sub == Sub(p, t, refs[p].sub)
    ensures At(refs, Running(t, c.frames + [c.pc], c.held + [c.pc], c.data), p + 1)
  {}

  /** The return point of a call, for the calls that were pending before. */
  lemma ReturnedAt<D>(m: Code, refs: seq<CodeRef>, c: Config<D>, p: nat, q: nat)
    requires At(refs, c, p) && refs[p].sub.Sub? && refs[p].sub.caller < |refs| && q < |refs|
    requires refs[q].sub == refs[p].sub.parent && refs[q].inumber == refs[refs[p].sub.caller].inumber + 1
    ensures c.frames != []
    ensures At(refs, Running(c.frames[|c.frames| - 1] + 1, c.frames[..|c.frames| - 1], c.held, c.data), q)
  {
    var outer := Frames(refs, refs[p].sub.parent);
    assert c.frames == outer + [refs[refs[p].sub.caller].inumber];
    assert c.frames[..|c.frames| - 1] == outer;
  }

  /** What the new code does at the copy's offset. */
  lemma NewStepIs<D>(m: Code, refs: seq<CodeRef>, next: map<nat, nat>, table: seq<CatchFrame>,
                     act: (nat, D) -> Act<D>, p: nat, data: D)
    requires Generated(m, refs, next, table) && p < |refs| && refs[p].flag != Skipped
    ensures var n := NewRunning(Offset(m, refs, p), data);
            NewStep(m, act, Emitted(m, refs, next, |refs|), table, n)
              == NewStepAt(m, act, Instr(m, refs, next, p), table, n)
  {
    hide Refs, EndsKnown, StructuredAt, Offset, EmittedOp, NewStepAt, Emitted, TableFor, Resolvable, ShortJumpsFit;
    hide OneRet;
    FetchEmitted(m, refs, next, p, |refs|);
  }

  /** A goto that stands for a jsr or a ret goes where the jsr or the ret would have gone. */
  lemma GotoStep<D>(m: Code, refs: seq<CodeRef>, next: map<nat, nat>, table: seq<CatchFrame>, act: (nat, D) -> Act<D>,
                    handle: Handle<D>, c: Config<D>, p: nat)
    requires Generated(m, refs, next, table) && At(refs, c, p) && refs[p].flag != Skipped
    requires m.ops[c.pc].Jsr? || m.ops[c.pc].Ret?
    ensures Related(m, refs, OldStep(m, act, handle, c),
            NewStepAt(m, act, Instr(m, refs, next, p), table, NewRunning(Offset(m, refs, p), c.data)))
  {
    hide Refs, EndsKnown, Structured, TableFor, Related, NewStepAt, Instr, OldStep, Resolvable, Offset;
    if m.ops[c.pc].Jsr? {
      CallGoes(m, refs, next, table, act, c, p);
      var q := CallArrives(m, refs, next, act, handle, c, p);
      RelatedAt(m, refs, OldStep(m, act, handle, c), q);
    } else {
      var q := ReturnArrives(m, refs, next, act, handle, c, p);
      ReturnGoes(m, refs, next, table, act, c, p);
      RelatedAt(m, refs, OldStep(m, act, handle, c), q);
    }
  }

  /** The place that a jsr which is kept goes to. */
  function CallPlace(m: Code, refs: seq<CodeRef>, p: nat): Option<nat>
    requires p < |refs| && refs[p].inumber < |m.ops| && m.ops[refs[p].inumber].Jsr?
  {
    var t := m.ops[refs[p].inumber].target;
    if !m.ops[refs[p].inumber].comesBack then TargetPlace(refs, refs[p].sub, t)
    else if p + 1 < |refs| then TargetPlace(refs, refs[p + 1].sub, t)
    else None
  }

  lemma CallArrives<D>(m: Code, refs: seq<CodeRef>, next: map<nat, nat>, act: (nat, D) -> Act<D>, handle: Handle<D>,
                       c: Config<D>, p: nat) returns (q: nat)
    requires Built(m, refs, next) && At(refs, c, p) && m.ops[c.pc].Jsr?
    ensures CallPlace(m, refs, p) == Some(q) && At(refs, OldStep(m, act, handle, c), q)
    ensures OldStep(m, act, handle, c).data == c.data
  {
    hide Refs, EndsKnown, Structured, InPlace, TargetPlace, OldStep;
    BuiltAt(m, refs, next, p);
    CallStep(m, act, handle, c);
    var t := m.ops[c.pc].target;
    if m.ops[c.pc].comesBack {
      q := CallFound(m, refs, next, p, c.pc);
    } else {
      q := GoToArrives(m, refs, next, c, p, t, c.held + [c.pc], c.data);
    }
  }

  lemma CallGoes<D>(m: Code, refs: seq<CodeRef>, next: map<nat, nat>, table: seq<CatchFrame>, act: (nat, D) -> Act<D>,
                    c: Config<D>, p: nat)
    requires Generated(m, refs, next, table) && At(refs, c, p) && refs[p].flag != Skipped && m.ops[c.pc].Jsr?
    ensures CallPlace(m, refs, p).Some? && CallPlace(m, refs, p).value < |refs|
    ensures NewStepAt(m, act, Instr(m, refs, next, p), table, NewRunning(Offset(m, refs, p), c.data))
         == NewRunning(Offset(m, refs, CallPlace(m, refs, p).value), c.data)
  {
    hide Refs, EndsKnown, Structured, TableFor, Offset, Find, Places, InPlace, Outward;
    BuiltAt(m, refs, next, p);
    FlagOfCopy(m, refs, next, p);
    assert Resolvable(m, refs, next, p);
    if m.ops[c.pc].comesBack {
      var q := CallFound(m, refs, next, p, c.pc);
    }
  }

  lemma ReturnArrives<D>(m: Code, refs: seq<CodeRef>, next: map<nat, nat>, act: (nat, D) -> Act<D>, handle: Handle<D>,
                         c: Config<D>, p: nat) returns (q: nat)
    requires Built(m, refs, next) && At(refs, c, p) && m.ops[c.pc].Ret?
    ensures refs[p].sub.Sub? && refs[p].sub.caller in next && next[refs[p].sub.caller] == q
    ensures At(refs, OldStep(m, act, handle, c), q) && OldStep(m, act, handle, c).data == c.data
  {
    hide Refs, EndsKnown, Structured, OldStep;
    ReturnFound(m, refs, next, p);
    q := next[refs[p].sub.caller];
    ReturnedAt(m, refs, c, p, q);
    ComesBack(m, act, handle, c);
  }

  lemma ReturnGoes<D>(m: Code, refs: seq<CodeRef>, next: map<nat, nat>, table: seq<CatchFrame>, act: (nat, D) -> Act<D>,
                      c: Config<D>, p: nat)
    requires Generated(m, refs, next, table) && At(refs, c, p) && refs[p].flag != Skipped && m.ops[c.pc].Ret?
    requires refs[p].sub.Sub? && refs[p].sub.caller in next && next[refs[p].sub.caller] < |refs|
    ensures NewStepAt(m, act, Instr(m, refs, next, p), table, NewRunning(Offset(m, refs, p), c.data))
         == NewRunning(Offset(m, refs, next[refs[p].sub.caller]), c.data)
  {
    hide Refs, EndsKnown, Structured, TableFor, Offset;
    assert Resolvable(m, refs, next, p);
  }

  lemma ThrowStep<D>(m: Code, refs: seq<CodeRef>, next: map<nat, nat>, table: seq<CatchFrame>, c: Config<D>, p: nat,
                     caught: nat -> bool, data: D)
    requires Generated(m, refs, next, table) && At(refs, c, p) && refs[p].flag != Skipped
    ensures Related(m, refs, Caught(m, c.pc, c.frames, caught, data),
            NewCaught(table, Offset(m, refs, p), caught, data))
  {
    hide Refs, EndsKnown, Structured, TableFor, Offset, TargetPlace, ShortJumpsFit, AllResolvable, Related;
    BuiltAt(m, refs, next, p);
    SameHandler(m, refs, next, table, |m.handlers|, p, caught);
    var k := OldHandler(m, c.pc, caught, |m.handlers|);
    if k.Some? {
      var t := m.handlers[k.value].handler;
      var q := GoToArrives(m, refs, next, c, p, t, [], data);
      RelatedAt(m, refs, GoTo(m, t, c.frames, [], data), q);
    } else {
      UncaughtRelated(m, refs, data);
    }
  }

  lemma UncaughtRelated<D>(m: Code, refs: seq<CodeRef>, data: D)
    requires Numbered(m, refs)
    ensures Related(m, refs, Ended(Uncaught(data)), NewEnded(Uncaught(data)))
  {}

  lemma FallStep<D>(m: Code, refs: seq<CodeRef>, next: map<nat, nat>, c: Config<D>, p: nat, held: seq<nat>, data: D)
    requires Built(m, refs, next) && At(refs, c, p) && c.pc < |m.ops| && (m.ops[c.pc].Plain? || m.ops[c.pc].If?)
    ensures p + 1 <= |refs|
    ensures Related(m, refs, Running(c.pc + 1, c.frames, held, data), NewRunning(Offset(m, refs, p + 1), data))
  {
    hide Refs, EndsKnown, Structured, Offset, Related, At, InPlace, Outward;
    AtPlace(refs, c, p);
    BuiltAt(m, refs, next, p);
    FallsThrough(m, refs, next, c, p, held, data);
    AtPlace(refs, Running(c.pc + 1, c.frames, held, data), p + 1);
    RelatedAt(m, refs, Running(c.pc + 1, c.frames, held, data), p + 1);
  }

  lemma AtPlace<D>(refs: seq<CodeRef>, c: Config<D>, p: nat)
    requires At(refs, c, p)
    ensures c.Running? && p < |refs| && refs[p].inumber == c.pc
  {}

  lemma TakeStep<D>(m: Code, refs: seq<CodeRef>, next: map<nat, nat>, c: Config<D>, p: nat, t: nat, held: seq<nat>,
                    data: D)
    requires Built(m, refs, next) && At(refs, c, p) && Outward(m, c.pc, t)
    ensures Found(m, refs, refs[p].sub, t)
    ensures Related(m, refs, GoTo(m, t, c.frames, held, data),
                    NewRunning(Offset(m, refs, p) + Displacement(m, refs, refs[p].sub, t, Offset(m, refs, p)), data))
  {
    hide Refs, EndsKnown, Structured, Offset, Related, TargetPlace;
    var q := GoToArrives(m, refs, next, c, p, t, held, data);
    RelatedAt(m, refs, GoTo(m, t, c.frames, held, data), q);
  }

  lemma EndRelated<D>(m: Code, refs: seq<CodeRef>, o: Outcome<D>)
    requires Numbered(m, refs)
    ensures Related(m, refs, Ended(o), NewEnded(o))
  {}

  /** An instruction that is copied does the same in both. */
  lemma ActStep<D>(m: Code, refs: seq<CodeRef>, next: map<nat, nat>, table: seq<CatchFrame>, act: (nat, D) -> Act<D>,
                   c: Config<D>, p: nat)
    requires Generated(m, refs, next, table) && At(refs, c, p) && refs[p].flag != Skipped
    requires c.pc < |m.ops| && !m.ops[c.pc].Jsr? && !m.ops[c.pc].Ret? && !m.ops[c.pc].StoreReturn?
    ensures Related(m, refs, OldAct(m, c.pc, c.frames, c.held, act(c.pc, c.data)),
                    NewStepAt(m, act, Instr(m, refs, next, p), table, NewRunning(Offset(m, refs, p), c.data)))
  {
    hide Refs, EndsKnown, Structured, TableFor, Offset, TargetPlace, Related, Displacement, Caught, NewCaught;
    hide InPlace, Outward, GoTo, Found;
    BuiltAt(m, refs, next, p);
    match act(c.pc, c.data) {
      case Throw(caught, data) => ThrowStep(m, refs, next, table, c, p, caught, data);
      case Fall(data) =>
        if m.ops[c.pc].Plain? || m.ops[c.pc].If? {
          FallStep(m, refs, next, c, p, c.held, data);
        } else {
          EndRelated<D>(m, refs, Stuck);
        }
      case Return(data) =>
        EndRelated(m, refs, Finished(data));
        EndRelated<D>(m, refs, Stuck);
      case Take(branch, data) =>
        EndRelated<D>(m, refs, Stuck);
        match m.ops[c.pc] {
          case If(t) => TakeStep(m, refs, next, c, p, t, c.held, data);
          case Goto(t) => TakeStep(m, refs, next, c, p, t, c.held, data);
          case Switch(ts) =>
            if branch < |ts| {
              TakeStep(m, refs, next, c, p, ts[branch], c.held, data);
            }
          case _ =>
        }
    }
  }

  /** One old step is either silent, with the new code standing where it was, or one new step. */
  lemma StepSimulates<D>(m: Code, refs: seq<CodeRef>, next: map<nat, nat>, table: seq<CatchFrame>,
                         act: (nat, D) -> Act<D>, handle: Handle<D>, c: Config<D>, p: nat)
    requires Generated(m, refs, next, table) && At(refs, c, p) && !TakesAddress(m, c)
    ensures var d := OldStep(m, act, handle, c);
            if refs[p].flag == Skipped
            then At(refs, d, p + 1) && d.data == c.data && Offset(m, refs, p + 1) == Offset(m, refs, p)
            else Related(m, refs, d, NewStep(m, act, Emitted(m, refs, next, |refs|), table,
              NewRunning(Offset(m, refs, p), c.data)))
  {
    hide Refs, EndsKnown, Structured, TableFor, Offset, Related, NewStep, NewStepAt, Instr, Emitted, OldAct;
    hide ShortJumpsFit, Resolvable;
    BuiltAt(m, refs, next, p);
    hide StructuredAt;
    if refs[p].flag == Skipped {
      SilentStep(m, refs, next, act, handle, c, p);
    } else {
      NewStepIs(m, refs, next, table, act, p, c.data);
      FlagOfCopy(m, refs, next, p);
      if m.ops[c.pc].Jsr? || m.ops[c.pc].Ret? {
        GotoStep(m, refs, next, table, act, handle, c, p);
      } else {
        ActStep(m, refs, next, table, act, c, p);
      }
    }
  }

  // ---------- whole runs ----------

  function OldRun<D>(m: Code, act: (nat, D) -> Act<D>, handle: Handle<D>, c: Config<D>, n: nat): Config<D>
    requires Sized(m)
    decreases n
  {
    if n == 0 then c else OldRun(m, act, handle, OldStep(m, act, handle, c), n - 1)
  }

  function NewRun<D>(m: Code, act: (nat, D) -> Act<D>, code: seq<NewInstr>, table: seq<CatchFrame>, c: NewConfig<D>,
                     n: nat): NewConfig<D>
    requires Sized(m)
    decreases n
  {
    if n == 0 then c else NewRun(m, act, code, table, NewStep(m, act, code, table, c), n - 1)
  }

  ghost predicate OldEnds<D>(m: Code, act: (nat, D) -> Act<D>, handle: Handle<D>, c: Config<D>, o: Outcome<D>)
    requires Sized(m)
  {
    exists n: nat :: OldRun(m, act, handle, c, n) == Ended(o)
  }

  ghost predicate NewEnds<D>(m: Code, act: (nat, D) -> Act<D>, code: seq<NewInstr>, table: seq<CatchFrame>,
                             c: NewConfig<D>, o: Outcome<D>)
    requires Sized(m)
  {
    exists n: nat :: NewRun(m, act, code, table, c, n) == NewEnded(o)
  }

  /** No instruction that has a return address among its operands is ever done. */
  ghost predicate HandsOff<D>(m: Code, act: (nat, D) -> Act<D>, handle: Handle<D>, c: Config<D>)
    requires Sized(m)
  {
    forall n: nat :: !TakesAddress(m, OldRun(m, act, handle, c, n))
  }

  lemma HandsOffStep<D>(m: Code, act: (nat, D) -> Act<D>, handle: Handle<D>, c: Config<D>)
    requires Sized(m) && HandsOff(m, act, handle, c)
    ensures !TakesAddress(m, c) && HandsOff(m, act, handle, OldStep(m, act, handle, c))
  {
    hide OldStep, TakesAddress;
    assert OldRun(m, act, handle, c, 0) == c;
    forall n: nat
      ensures !TakesAddress(m, OldRun(m, act, handle, OldStep(m, act, handle, c), n))
    {
      assert OldRun(m, act, handle, c, n + 1) == OldRun(m, act, handle, OldStep(m, act, handle, c), n);
    }
  }

  lemma OldEndsStep<D>(m: Code, act: (nat, D) -> Act<D>, handle: Handle<D>, c: Config<D>, o: Outcome<D>)
    requires Sized(m) && OldEnds(m, act, handle, OldStep(m, act, handle, c), o)
    ensures OldEnds(m, act, handle, c, o)
  {
    hide OldStep;
    var n: nat :| OldRun(m, act, handle, OldStep(m, act, handle, c), n) == Ended(o);
    assert OldRun(m, act, handle, c, n + 1) == Ended(o);
  }

  lemma NewEndsStep<D>(m: Code, act: (nat, D) -> Act<D>, code: seq<NewInstr>, table: seq<CatchFrame>, c: NewConfig<D>,
                       o: Outcome<D>)
    requires Sized(m) && NewEnds(m, act, code, table, NewStep(m, act, code, table, c), o)
    ensures NewEnds(m, act, code, table, c, o)
  {
    hide NewStep;
    var n: nat :| NewRun(m, act, code, table, NewStep(m, act, code, table, c), n) == NewEnded(o);
    assert NewRun(m, act, code, table, c, n + 1) == NewEnded(o);
  }

  lemma {:induction false} OldRunEnded<D>(m: Code, act: (nat, D) -> Act<D>, handle: Handle<D>, o: Outcome<D>, n: nat)
    requires Sized(m)
    ensures OldRun(m, act, handle, Ended(o), n) == Ended(o)
    decreases n
  {
    if n > 0 {
      OldRunEnded(m, act, handle, o, n - 1);
    }
  }

  lemma {:induction false} NewRunEnded<D>(m: Code, act: (nat, D) -> Act<D>, code: seq<NewInstr>,
                                          table: seq<CatchFrame>, o: Outcome<D>, n: nat)
    requires Sized(m)
    ensures NewRun(m, act, code, table, NewEnded(o), n) == NewEnded(o)
    decreases n
  {
    if n > 0 {
      NewRunEnded(m, act, code, table, o, n - 1);
    }
  }

  /** If the old run ends, the new one ends alike. */
  lemma {:induction false} Forward<D>(m: Code, refs: seq<CodeRef>, next: map<nat, nat>, table: seq<CatchFrame>,
                                      act: (nat, D) -> Act<D>, handle: Handle<D>,
                                      c: Config<D>, p: nat, n: nat, o: Outcome<D>)
    requires Generated(m, refs, next, table) && At(refs, c, p) && HandsOff(m, act, handle, c)
             && OldRun(m, act, handle, c, n) == Ended(o)
    ensures NewEnds(m, act, Emitted(m, refs, next, |refs|), table, NewRunning(Offset(m, refs, p), c.data), o)
    decreases n
  {
    hide Refs, StructuredAt, OneRet, EndsKnown, TableFor, Offset, OldStep, NewStep, Emitted, ShortJumpsFit;
    hide Resolvable, HandsOff, TakesAddress, NewEnds;
    HandsOffStep(m, act, handle, c);
    StepSimulates(m, refs, next, table, act, handle, c, p);
    var code, d := Emitted(m, refs, next, |refs|), OldStep(m, act, handle, c);
    if refs[p].flag == Skipped {
      Forward(m, refs, next, table, act, handle, d, p + 1, n - 1, o);
    } else {
      var now := NewRunning(Offset(m, refs, p), c.data);
      if d.Ended? {
        OldRunEnded(m, act, handle, d.outcome, n - 1);
        NewEndsNow(m, act, code, table, o);
      } else {
        var q: nat :| At(refs, d, q) && NewStep(m, act, code, table, now) == NewRunning(Offset(m, refs, q), d.data);
        Forward(m, refs, next, table, act, handle, d, q, n - 1, o);
      }
      NewEndsStep(m, act, code, table, now, o);
    }
  }

  lemma NewEndsNow<D>(m: Code, act: (nat, D) -> Act<D>, code: seq<NewInstr>, table: seq<CatchFrame>, o: Outcome<D>)
    requires Sized(m)
    ensures NewEnds(m, act, code, table, NewEnded(o), o)
  {
    assert NewRun(m, act, code, table, NewEnded(o), 0) == NewEnded(o);
  }

  lemma OldEndsNow<D>(m: Code, act: (nat, D) -> Act<D>, handle: Handle<D>, o: Outcome<D>)
    requires Sized(m)
    ensures OldEnds(m, act, handle, Ended(o), o)
  {
    assert OldRun(m, act, handle, Ended(o), 0) == Ended(o);
  }

  /** If the new run ends, the old one ends alike: silent steps move forward in the list. */
  lemma {:induction false} Backward<D>(m: Code, refs: seq<CodeRef>, next: map<nat, nat>, table: seq<CatchFrame>,
                                       act: (nat, D) -> Act<D>, handle: Handle<D>,
                                       c: Config<D>, p: nat, n: nat, o: Outcome<D>)
    requires Generated(m, refs, next, table) && At(refs, c, p) && HandsOff(m, act, handle, c)
    requires NewRun(m, act, Emitted(m, refs, next, |refs|), table, NewRunning(Offset(m, refs, p), c.data), n)
             == NewEnded(o)
    ensures OldEnds(m, act, handle, c, o)
    decreases n, |refs| - p
  {
    hide Refs, StructuredAt, OneRet, EndsKnown, TableFor, Offset, OldStep, NewStep, Emitted, ShortJumpsFit;
    hide Resolvable, HandsOff, TakesAddress, OldEnds;
    HandsOffStep(m, act, handle, c);
    StepSimulates(m, refs, next, table, act, handle, c, p);
    var code, d := Emitted(m, refs, next, |refs|), OldStep(m, act, handle, c);
    if refs[p].flag == Skipped {
      Backward(m, refs, next, table, act, handle, d, p + 1, n, o);
    } else {
      var now := NewRunning(Offset(m, refs, p), c.data);
      if d.Ended? {
        NewRunEnded(m, act, code, table, d.outcome, n - 1);
        OldEndsNow(m, act, handle, o);
      } else {
        var q: nat :| At(refs, d, q) && NewStep(m, act, code, table, now) == NewRunning(Offset(m, refs, q), d.data);
        Backward(m, refs, next, table, act, handle, d, q, n - 1, o);
      }
    }
    OldEndsStep(m, act, handle, c, o);
  }

  /** The generated code ends exactly as the method does, with the same result, with the same uncaught
      exception, or not at all, if no return address is handled on the way. */
  lemma SameWhenHandsOff<D>(m: Code, refs: seq<CodeRef>, next: map<nat, nat>, table: seq<CatchFrame>,
                            act: (nat, D) -> Act<D>,
                            handle: Handle<D>, data: D, o: Outcome<D>)
    requires Generated(m, refs, next, table) && HandsOff(m, act, handle, Running(0, [], [], data))
    ensures OldEnds(m, act, handle, Running(0, [], [], data), o) <==>
            NewEnds(m, act, Emitted(m, refs, next, |refs|), table, NewRunning(0, data), o)
  {
    var c := Running(0, [], [], data);
    EntryAt(m, refs, next, data);
    hide Refs, Built, TableFor, OldStep, NewStep, Emitted, ShortJumpsFit, AllResolvable, At, HandsOff;
    if OldEnds(m, act, handle, c, o) {
      var n: nat :| OldRun(m, act, handle, c, n) == Ended(o);
      Forward(m, refs, next, table, act, handle, c, 0, n, o);
    }
    if NewEnds(m, act, Emitted(m, refs, next, |refs|), table, NewRunning(0, data), o) {
      var n: nat :| NewRun(m, act, Emitted(m, refs, next, |refs|), table, NewRunning(0, data), n) == NewEnded(o);
      Backward(m, refs, next, table, act, handle, c, 0, n, o);
    }
  }

  /** In a method that only stores return addresses, none is ever handled. */
  lemma {:induction false} StoredNotTaken<D>(m: Code, refs: seq<CodeRef>, next: map<nat, nat>, table: seq<CatchFrame>,
                                             act: (nat, D) -> Act<D>, handle: Handle<D>, c: Config<D>, p: nat, n: nat)
    requires Generated(m, refs, next, table) && AddressesStored(m) && At(refs, c, p)
    ensures !TakesAddress(m, OldRun(m, act, handle, c, n))
    decreases n
  {
    hide Refs, StructuredAt, OneRet, EndsKnown, TableFor, Offset, OldStep, NewStep, Emitted, ShortJumpsFit, Resolvable;
    assert !TakesAddress(m, c) by { BuiltAt(m, refs, next, p); }
    if n > 0 {
      StepSimulates(m, refs, next, table, act, handle, c, p);
      hide AddressesStored, TakesAddress;
      var d := OldStep(m, act, handle, c);
      if d.Ended? {
        OldRunEnded(m, act, handle, d.outcome, n - 1);
        EndedTakesNothing(m, d);
      } else {
        var q: nat :| At(refs, d, q);
        StoredNotTaken(m, refs, next, table, act, handle, d, q, n - 1);
      }
    }
  }

  lemma EndedTakesNothing<D>(m: Code, c: Config<D>)
    requires Sized(m) && c.Ended?
    ensures !TakesAddress(m, c)
  {}

  /** The generated code of a method that only stores return addresses ends exactly as the method does. */
  lemma SameOutcome<D>(m: Code, refs: seq<CodeRef>, next: map<nat, nat>, table: seq<CatchFrame>,
                       act: (nat, D) -> Act<D>,
                       handle: Handle<D>, data: D, o: Outcome<D>)
    requires Generated(m, refs, next, table) && AddressesStored(m)
    ensures OldEnds(m, act, handle, Running(0, [], [], data), o) <==>
            NewEnds(m, act, Emitted(m, refs, next, |refs|), table, NewRunning(0, data), o)
  {
    var c := Running(0, [], [], data);
    EntryAt(m, refs, next, data);
    hide Refs, Built, TableFor, OldStep, NewStep, Emitted, ShortJumpsFit, AllResolvable, At, OldRun, OldEnds, NewEnds;
    hide TakesAddress;
    forall n: nat
      ensures !TakesAddress(m, OldRun(m, act, handle, c, n))
    {
      StoredNotTaken(m, refs, next, table, act, handle, c, 0, n);
    }
    SameWhenHandsOff(m, refs, next, table, act, handle, data, o);
  }

  lemma EntryAt<D>(m: Code, refs: seq<CodeRef>, next: map<nat, nat>, data: D)
    requires Built(m, refs, next)
    ensures At(refs, Running(0, [], [], data), 0) && Offset(m, refs, 0) == 0 && Sized(m)
  {
    hide Body, EndsKnown, StructuredAt;
    LiveSegment(m, refs, Top);
    FirstOfBody(m, refs, Top, 0, 0);
  }

  // ---------- rewriting a method ----------

  method RewriteCode(m: Code, frames: seq<CatchFrame>, codeData: array<int>)
      returns (code: seq<NewInstr>, table: seq<CatchFrame>, ghost refs: seq<CodeRef>, ghost next: map<nat, nat>)
    requires Structured(m) && SameFrames(m, frames, m.handlers) && codeData[..] == CodeData(m, |m.ops|)
    ensures Built(m, refs, next) && AllResolvable(m, refs, next)
    ensures code == Emitted(m, refs, next, |refs|) && TableFor(m, refs, table, |m.handlers|)
            && AllOnOffsets(m, refs, table)
  {
    hide EndsKnown, Refs, Emitted, TableFor, Resolvable, Offset, Places, OneRet, CodeData, SameFrames, StructuredAt;
    hide OnOffsets;
    var ctx := Inline(m);
    var offsets, length;
    code, offsets, length := FixupCode(ctx);
    table := FixupExceptionHandlers(ctx, frames, codeData, offsets, length);
    refs, next := ctx.refs, ctx.next;
  }

  /** No jsr, no ret and no store of a return address is left. */
  lemma {:induction false} NoSubroutinesLeft(m: Code, refs: seq<CodeRef>, next: map<nat, nat>, count: nat, k: nat)
    requires Built(m, refs, next) && AllResolvable(m, refs, next) && count <= |refs|
             && k < |Emitted(m, refs, next, count)|
    ensures match Emitted(m, refs, next, count)[k].op
            case Copied(i) => i < |m.ops| && (m.ops[i].Plain? || m.ops[i].Exit?)
            case Branching(i, _) => i < |m.ops| && (m.ops[i].If? || m.ops[i].Goto?)
            case Switching(i, _) => i < |m.ops| && m.ops[i].Switch?
            case PlainGoto(_) => true
    decreases count
  {
    hide Refs, StructuredAt, OneRet, EndsKnown, Offset, Displacement, Displacements;
    if count > 0 {
      FlagOfCopy(m, refs, next, count - 1);
      if m.ops[refs[count - 1].inumber].Jsr? && m.ops[refs[count - 1].inumber].comesBack {
        var q := CallFound(m, refs, next, count - 1, refs[count - 1].inumber);
      }
      if k < |Emitted(m, refs, next, count - 1)| {
        NoSubroutinesLeft(m, refs, next, count - 1, k);
      }
    }
  }
}
