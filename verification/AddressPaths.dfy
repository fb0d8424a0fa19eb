/** The condition on return addresses in terms of a method's control flow alone: which instructions are
    on some path, whatever any of them computes. */
module AddressPaths {
  import opened Wrappers
  import opened Subroutines
  import opened InlinedList
  import opened InlineJsr
  import opened NewCode
  import opened EmittedCode
  import opened ExceptionTable
  import opened CodeOffsets
  import opened InlineRuns
  import opened ReturnAddresses

  /** Where control is: at an instruction, with these calls pending. */
  datatype Spot = Spot(pc: nat, frames: seq<nat>)

  function SpotOf<D>(c: Config<D>): Spot {
    if c.Running? then Spot(c.pc, c.frames) else Spot(0, [])
  }

  /** The next spot if the instruction, where it has a choice, goes on as `a` says. */
  function After(m: Code, s: Spot, a: Act<nat>): Config<nat>
    requires Sized(m)
  {
    OldStep(m, (i, d) => a, Thrower(0), Running(s.pc, s.frames, [], 0))
  }

  predicate FollowsBy(m: Code, s: Spot, a: Act<nat>, t: Spot)
    requires Sized(m)
  {
    After(m, s, a).Running? && SpotOf(After(m, s, a)) == t
  }

  ghost predicate Follows(m: Code, s: Spot, t: Spot)
    requires Sized(m)
  {
    exists a: Act<nat> :: FollowsBy(m, s, a, t)
  }

  /** An instruction that has a return address among its operands, and is no store. */
  predicate Taker(m: Code, s: Spot)
    requires Sized(m)
  {
    TakesAddress(m, Running(s.pc, s.frames, [], 0))
  }

  ghost predicate Walk(m: Code, p: seq<Spot>)
    requires Sized(m)
  {
    p != [] && p[0] == Spot(0, []) && forall k :: 0 < k < |p| ==> GoesOn(m, p[k - 1], p[k])
  }

  ghost predicate GoesOn(m: Code, s: Spot, t: Spot)
    requires Sized(m)
  {
    !Taker(m, s) && Follows(m, s, t)
  }

  /** Some path of the control flow leads to such an instruction. */
  ghost predicate WalksToTaker(m: Code)
    requires Sized(m)
  {
    exists p :: Walk(m, p) && Taker(m, p[|p| - 1])
  }

  // ---------- every run walks ----------

  function Erase<D>(a: Act<D>): Act<nat> {
    match a
    case Fall(_) => Fall(0)
    case Take(b, _) => Take(b, 0)
    case Throw(caught, _) => Throw(caught, 0)
    case Return(_) => Return(0)
  }

  lemma StepFollows<D>(m: Code, act: (nat, D) -> Act<D>, handle: Handle<D>, c: Config<D>)
    requires Sized(m) && c.Running? && !TakesAddress(m, c) && OldStep(m, act, handle, c).Running?
    ensures Follows(m, SpotOf(c), SpotOf(OldStep(m, act, handle, c)))
  {
    hide OldHandler;
    var a := Erase(act(c.pc, c.data));
    assert FollowsBy(m, SpotOf(c), a, SpotOf(OldStep(m, act, handle, c)));
  }

  lemma {:induction false} RunWalks<D>(m: Code, act: (nat, D) -> Act<D>, handle: Handle<D>, c: Config<D>, n: nat,
                                       p: seq<Spot>)
    requires Sized(m) && c.Running? && TakesAddress(m, OldRun(m, act, handle, c, n))
    requires Walk(m, p) && p[|p| - 1] == SpotOf(c)
    ensures WalksToTaker(m)
    decreases n
  {
    hide OldStep, Follows;
    if TakesAddress(m, c) {
      assert Walk(m, p) && Taker(m, p[|p| - 1]);
    } else {
      var d := OldStep(m, act, handle, c);
      if d.Ended? {
        OldRunEnded(m, act, handle, d.outcome, n - 1);
        EndedTakesNothing(m, d);
        assert false;
      } else {
        StepFollows(m, act, handle, c);
        RunWalks(m, act, handle, d, n - 1, p + [SpotOf(d)]);
      }
    }
  }

  // ---------- every walk can be run ----------

  /** Instructions that go on as a script says; the data count those that have. */
  function Scripted(script: seq<Act<nat>>): (nat, nat) -> Act<nat> {
    (i: nat, d: nat) => if d < |script| then Counted(script[d], d + 1) else Throw(_ => false, d)
  }

  function Counted(a: Act<nat>, d: nat): Act<nat> {
    match a
    case Fall(_) => Fall(d)
    case Take(b, _) => Take(b, d)
    case Throw(caught, _) => Throw(caught, d)
    case Return(_) => Return(d)
  }

  /** The script is asked at this spot. */
  predicate Asks(m: Code, s: Spot)
    requires Sized(m)
  {
    s.pc < |m.ops| && !m.ops[s.pc].StoreReturn? && !m.ops[s.pc].Jsr? && !m.ops[s.pc].Ret?
  }

  lemma ScriptedStep(m: Code, script: seq<Act<nat>>, c: Config<nat>, a: Act<nat>, t: Spot)
    requires Sized(m) && c.Running? && !TakesAddress(m, c) && FollowsBy(m, SpotOf(c), a, t)
    requires Asks(m, SpotOf(c)) ==> c.data < |script| && script[c.data] == a
    ensures var d := OldStep(m, Scripted(script), Thrower(0), c);
            d.Running? && SpotOf(d) == t && d.data == if Asks(m, SpotOf(c)) then c.data + 1 else c.data
  {
    hide OldHandler;
  }

  lemma {:induction false} RunLast<D>(m: Code, act: (nat, D) -> Act<D>, handle: Handle<D>, c: Config<D>, n: nat)
    requires Sized(m)
    ensures OldRun(m, act, handle, c, n + 1) == OldStep(m, act, handle, OldRun(m, act, handle, c, n))
    decreases n
  {
    hide OldStep;
    if n > 0 {
      RunLast(m, act, handle, OldStep(m, act, handle, c), n - 1);
    }
  }

  /** After as many steps as the walk has, every script that starts like this is at the walk's last spot. */
  ghost predicate Leads(m: Code, script: seq<Act<nat>>, n: nat, t: Spot)
    requires Sized(m)
  {
    forall longer: seq<Act<nat>> {:trigger Scripted(longer)} :: script <= longer ==>
      var c := OldRun(m, Scripted(longer), Thrower(0), Running(0, [], [], 0), n);
      c.Running? && SpotOf(c) == t && c.data == |script|
  }

  lemma {:induction false} WalkRuns(m: Code, p: seq<Spot>) returns (script: seq<Act<nat>>)
    requires Sized(m) && Walk(m, p)
    ensures Leads(m, script, |p| - 1, p[|p| - 1])
    decreases |p|
  {
    hide OldStep, FollowsBy, Asks;
    if |p| == 1 {
      script := [];
    } else {
      var n := |p| - 2;
      var before := WalkRuns(m, p[..n + 1]);
      assert p[..n + 1][n] == p[n];
      assert GoesOn(m, p[n], p[n + 1]);
      var a: Act<nat> :| FollowsBy(m, p[n], a, p[n + 1]);
      script := if Asks(m, p[n]) then before + [a] else before;
      forall longer: seq<Act<nat>> | script <= longer
        ensures var c := OldRun(m, Scripted(longer), Thrower(0), Running(0, [], [], 0), n + 1);
                c.Running? && SpotOf(c) == p[n + 1] && c.data == |script|
      {
        assert before <= longer;
        var c := OldRun(m, Scripted(longer), Thrower(0), Running(0, [], [], 0), n);
        ScriptedStep(m, longer, c, a, p[n + 1]);
        RunLast(m, Scripted(longer), Thrower(0), Running(0, [], [], 0), n);
      }
    }
  }

  // ---------- the condition ----------

  /** Whatever the instructions of a method compute, to return addresses and otherwise, the new code ends
      as the old code does: that is so if and only if no path leads to an instruction that has a return
      address among its operands and is no store. */
  lemma SameForAllEffectsIff(m: Code, refs: seq<CodeRef>, next: map<nat, nat>, table: seq<CatchFrame>)
    requires Generated(m, refs, next, table)
    ensures (forall act: (nat, nat) -> Act<nat> :: SameOutcomes(m, act, Emitted(m, refs, next, |refs|), table, 0))
            <==> !WalksToTaker(m)
  {
    hide Structured, AllResolvable, ShortJumpsFit, TableFor, EndsKnown, Refs, SameOutcomes, NeverTaken, Emitted;
    hide WalksToTaker;
    var code := Emitted(m, refs, next, |refs|);
    if WalksToTaker(m) {
      var act := WalkTakes(m);
      SameOutcomesIff(m, refs, next, table, act, 0, 0, 1);
    } else {
      forall act: (nat, nat) -> Act<nat>
        ensures SameOutcomes(m, act, code, table, 0)
      {
        SameOutcomesIff(m, refs, next, table, act, 0, 0, 1);
        NoWalkTakes(m, act);
      }
    }
  }

  lemma WalkTakes(m: Code) returns (act: (nat, nat) -> Act<nat>)
    requires Sized(m) && WalksToTaker(m)
    ensures !NeverTaken(m, act, 0)
  {
    hide OldRun, GoesOn;
    var p :| Walk(m, p) && Taker(m, p[|p| - 1]);
    var script := WalkRuns(m, p);
    act := Scripted(script);
    assert TakesAddress(m, OldRun(m, Scripted(script), Thrower(0), Running(0, [], [], 0), |p| - 1));
    assert !HandsOff(m, act, Thrower(0), Running(0, [], [], 0));
  }

  lemma NoWalkTakes(m: Code, act: (nat, nat) -> Act<nat>)
    requires Sized(m) && !WalksToTaker(m)
    ensures NeverTaken(m, act, 0)
  {
    hide OldRun, WalksToTaker;
    forall handle: Handle<nat>, n: nat
      ensures !TakesAddress(m, OldRun(m, act, handle, Running(0, [], [], 0), n))
    {
      if TakesAddress(m, OldRun(m, act, handle, Running(0, [], [], 0), n)) {
        assert Walk(m, [Spot(0, [])]);
        RunWalks(m, act, handle, Running(0, [], [], 0), n, [Spot(0, [])]);
      }
    }
  }
}
