/** The exception table of the new code: a run of entries for every copy of every handler. */
module ExceptionTable {
  import opened Wrappers
  import opened Subroutines
  import opened InlinedList
  import opened InlineJsr
  import opened NewCode
  import opened EmittedCode
  import opened CodeOffsets

  /** The copy at place `p` is protected by old handler `k`, to be caught by the copy at place `h`. */
  predicate Match(m: Code, refs: seq<CodeRef>, k: nat, h: nat, p: nat)
    requires k < |m.handlers| && h < |refs| && p < |refs|
  {
    m.handlers[k].Protects(refs[p].inumber) && Encloses(refs[h].sub, refs[p].sub)
  }

  predicate Spans(c: CatchFrame, pc: nat) {
    c.start <= pc < c.end
  }

  predicate SpannedBy(table: seq<CatchFrame>, pc: nat) {
    exists j :: 0 <= j < |table| && Spans(table[j], pc)
  }

  // ---------- the entries for one copy of a handler ----------

  /** All entries lead to the copy at place `h` of handler `k`, and together they cover exactly the
      copies before place `p` that match. */
  ghost predicate RunsFor(m: Code, refs: seq<CodeRef>, table: seq<CatchFrame>, k: nat, h: nat, p: nat)
    requires Numbered(m, refs) && k < |m.handlers| && h < |refs| && p <= |refs|
  {
    && (forall j :: 0 <= j < |table| ==> EntryFor(m, refs, table[j], k, h, p))
    && forall q: nat :: q < p && refs[q].flag != Skipped ==>
         (SpannedBy(table, Offset(m, refs, q)) <==> Match(m, refs, k, h, q))
  }

  predicate EntryFor(m: Code, refs: seq<CodeRef>, c: CatchFrame, k: nat, h: nat, p: nat)
    requires Numbered(m, refs) && k < |m.handlers| && h < |refs| && p <= |refs|
  {
    c.handler == Offset(m, refs, h) && c.kind == m.handlers[k].kind && c.end <= Offset(m, refs, p)
  }

  /** The entries so far, and the one still open. */
  function WithOpen(table: seq<CatchFrame>, open: Option<CatchFrame>, end: nat): seq<CatchFrame> {
    if open.Some? then table + [open.value.(end := end)] else table
  }

  lemma SpannedAppend(table: seq<CatchFrame>, c: CatchFrame, pc: nat)
    ensures SpannedBy(table + [c], pc) <==> SpannedBy(table, pc) || Spans(c, pc)
  {
    if SpannedBy(table, pc) {
      var j :| 0 <= j < |table| && Spans(table[j], pc);
      assert Spans((table + [c])[j], pc);
    }
    if Spans(c, pc) {
      assert Spans((table + [c])[|table|], pc);
    }
  }

  lemma NoEntryAtEnd(m: Code, refs: seq<CodeRef>, table: seq<CatchFrame>, k: nat, h: nat, p: nat)
    requires Numbered(m, refs) && k < |m.handlers| && h < |refs| && p < |refs| && RunsFor(m, refs, table, k, h, p)
    ensures !SpannedBy(table, Offset(m, refs, p))
  {
    hide Offset;
  }

  /** Nothing is done at a dropped copy, and nothing at one that does not match. */
  lemma RunsSkip(m: Code, refs: seq<CodeRef>, table: seq<CatchFrame>, k: nat, h: nat, p: nat)
    requires Numbered(m, refs) && k < |m.handlers| && h < |refs| && p < |refs| && RunsFor(m, refs, table, k, h, p)
    requires refs[p].flag == Skipped || !Match(m, refs, k, h, p)
    ensures RunsFor(m, refs, table, k, h, p + 1)
  {
    NoEntryAtEnd(m, refs, table, k, h, p);
    OffsetMonotone(m, refs, p, p + 1);
    hide Offset, SpannedBy, Match;
  }

  /** Lengthening the open entry, or opening one, adds the offsets from `now` on. */
  lemma LongerSpans(table: seq<CatchFrame>, open: Option<CatchFrame>, c: CatchFrame, now: nat, then_: nat, pc: nat)
    requires c.start <= now < then_ && (if open.Some? then c == open.value else c.start == now)
    ensures SpannedBy(WithOpen(table, Some(c), then_), pc) <==>
            SpannedBy(WithOpen(table, open, now), pc) || now <= pc < then_
  {
    hide SpannedBy;
    SpannedAppend(table, c.(end := then_), pc);
    if open.Some? {
      SpannedAppend(table, c.(end := now), pc);
    }
  }

  /** A copy that matches starts an entry or lengthens the open one. */
  lemma RunsMatch(m: Code, refs: seq<CodeRef>, table: seq<CatchFrame>, open: Option<CatchFrame>, k: nat, h: nat, p: nat)
    requires Numbered(m, refs) && k < |m.handlers| && h < |refs| && p < |refs|
    requires RunsFor(m, refs, WithOpen(table, open, Offset(m, refs, p)), k, h, p)
    requires refs[p].flag != Skipped && Match(m, refs, k, h, p) && m.lengths[refs[p].inumber] > 0
    requires forall i :: 0 <= i < |m.lengths| ==> m.lengths[i] > 0
    requires open.Some? ==> open.value.start <= Offset(m, refs, p)
    ensures var c := if open.Some? then open.value
                     else CatchFrame(Offset(m, refs, p), 0, Offset(m, refs, h), m.handlers[k].kind);
            c.start <= Offset(m, refs, p + 1) && RunsFor(m, refs, WithOpen(table, Some(c), Offset(m, refs, p + 1)), k,
              h, p + 1)
  {
    var now, then_ := Offset(m, refs, p), Offset(m, refs, p + 1);
    var c := if open.Some? then open.value else CatchFrame(now, 0, Offset(m, refs, h), m.handlers[k].kind);
    var before, after := WithOpen(table, open, now), WithOpen(table, Some(c), then_);
    OffsetStrict(m, refs, p, p + 1);
    forall q: nat | q <= p && refs[q].flag != Skipped
      ensures SpannedBy(after, Offset(m, refs, q)) <==> Match(m, refs, k, h, q)
    {
      if q < p {
        OffsetStrict(m, refs, q, p);
      }
      hide Offset, SpannedBy, Match;
      LongerSpans(table, open, c, now, then_, Offset(m, refs, q));
    }
    hide Offset, SpannedBy, Match;
    assert after == table + [c.(end := then_)];
    forall j | 0 <= j < |after|
      ensures EntryFor(m, refs, after[j], k, h, p + 1)
    {
      if j < |table| {
        assert after[j] == before[j];
      } else if open.Some? {
        assert EntryFor(m, refs, before[j], k, h, p);
      }
    }
  }

  /** The offset of one of the first `count` places. */
  ghost predicate IsOffset(m: Code, refs: seq<CodeRef>, pc: nat, count: nat)
    requires Numbered(m, refs) && count <= |refs| + 1
  {
    exists p: nat :: p < count && Offset(m, refs, p) == pc
  }

  /** An entry starts at a copy, ends at a copy or at the end, and leads to a copy. */
  ghost predicate OnOffsets(m: Code, refs: seq<CodeRef>, c: CatchFrame)
    requires Numbered(m, refs)
  {
    IsOffset(m, refs, c.start, |refs|) && IsOffset(m, refs, c.end, |refs| + 1) && IsOffset(m, refs, c.handler, |refs|)
  }

  ghost predicate AllOnOffsets(m: Code, refs: seq<CodeRef>, table: seq<CatchFrame>)
    requires Numbered(m, refs)
  {
    forall j :: 0 <= j < |table| ==> OnOffsets(m, refs, table[j])
  }

  lemma ClosedOnOffsets(m: Code, refs: seq<CodeRef>, c: CatchFrame, p: nat, q: nat, h: nat)
    requires Numbered(m, refs) && p < |refs| && q <= |refs| && h < |refs|
    requires c.start == Offset(m, refs, p) && c.end == Offset(m, refs, q) && c.handler == Offset(m, refs, h)
    ensures OnOffsets(m, refs, c)
  {
    hide Offset;
  }

  method CatchRuns(ctx: JsrContext, offsets: array<nat>, length: nat, this_: Catch, ghost k: nat, h: nat)
      returns (table: seq<CatchFrame>)
    requires Finished(ctx) && k < |ctx.m.handlers| && this_ == ctx.m.handlers[k]
    requires h < |ctx.refs| && offsets.Length == |ctx.refs|
    requires forall p :: 0 <= p < |ctx.refs| ==> offsets[p] == Offset(ctx.m, ctx.refs, p)
    requires length == Offset(ctx.m, ctx.refs, |ctx.refs|)
    ensures RunsFor(ctx.m, ctx.refs, table, k, h, |ctx.refs|) && AllOnOffsets(ctx.m, ctx.refs, table)
  {
    hide Places, OneRet, Offset, Refs, EndsKnown, StructuredAt, SpannedBy, Match, EntryFor, RunsFor, Encloses;
    hide OnOffsets;
    var m, refs := ctx.m, ctx.refs;
    table := [];
    var open: Option<CatchFrame> := None;
    ghost var first := 0;
    RunsStart(m, refs, k, h);
    var p := 0;
    while p < |refs|
      invariant AllOnOffsets(m, refs, table)
      invariant open.Some? ==> first < |refs| && open.value.start == Offset(m, refs, first)
      invariant open.Some? ==> open.value.handler == Offset(m, refs, h)
      invariant p <= |refs| && RunsFor(m, refs, WithOpen(table, open, Offset(m, refs, p)), k, h, p)
      invariant open.Some? ==> open.value.start <= Offset(m, refs, p)
    {
      ghost var was := WithOpen(table, open, Offset(m, refs, p));
      var thisMatch := false;
      if refs[p].flag != Skipped {
        thisMatch := this_.start <= refs[p].inumber < this_.end;
        if thisMatch {
          thisMatch := SubroutineGoto(refs[p].sub, refs[h].sub);
        }
        MatchIs(m, refs, k, h, p);
        if thisMatch {
          RunsMatch(m, refs, table, open, k, h, p);
          if open.None? {
            open := Some(CatchFrame(offsets[p], 0, offsets[h], this_.kind));
            first := p;
          }
        } else {
          RunsSkip(m, refs, was, k, h, p);
          if open.Some? {
            ClosedOnOffsets(m, refs, open.value.(end := offsets[p]), first, p, h);
            table := table + [open.value.(end := offsets[p])];
            open := None;
          }
        }
      } else {
        RunsSkip(m, refs, was, k, h, p);
        SkippedOffset(m, refs, p);
      }
      p := p + 1;
    }
    if open.Some? {
      ClosedOnOffsets(m, refs, open.value.(end := length), first, |refs|, h);
      table := table + [open.value.(end := length)];
    }
  }

  lemma MatchIs(m: Code, refs: seq<CodeRef>, k: nat, h: nat, p: nat)
    requires k < |m.handlers| && h < |refs| && p < |refs|
    ensures Match(m, refs, k, h, p) <==>
            m.handlers[k].start <= refs[p].inumber < m.handlers[k].end && Encloses(refs[h].sub, refs[p].sub)
  {}

  lemma SkippedOffset(m: Code, refs: seq<CodeRef>, p: nat)
    requires Numbered(m, refs) && p < |refs| && refs[p].flag == Skipped
    ensures Offset(m, refs, p + 1) == Offset(m, refs, p)
  {}

  lemma RunsStart(m: Code, refs: seq<CodeRef>, k: nat, h: nat)
    requires Numbered(m, refs) && k < |m.handlers| && h < |refs|
    ensures RunsFor(m, refs, [], k, h, 0)
  {}

  // ---------- the entries for one handler ----------

  predicate MatchAmong(m: Code, refs: seq<CodeRef>, k: nat, places: seq<nat>, p: nat)
    requires k < |m.handlers| && p < |refs| && forall j :: 0 <= j < |places| ==> places[j] < |refs|
  {
    exists j :: 0 <= j < |places| && Match(m, refs, k, places[j], p)
  }

  /** A covering entry leads to a copy of the handler that matches. */
  predicate LeadsAmong(m: Code, refs: seq<CodeRef>, c: CatchFrame, k: nat, places: seq<nat>, p: nat)
    requires Numbered(m, refs) && k < |m.handlers| && p < |refs| && forall j :: 0 <= j < |places| ==> places[j] < |refs|
  {
    c.kind == m.handlers[k].kind
    && exists j :: 0 <= j < |places| && Match(m, refs, k, places[j], p) && c.handler == Offset(m, refs, places[j])
  }

  ghost predicate BlockFor(m: Code, refs: seq<CodeRef>, b: seq<CatchFrame>, k: nat, places: seq<nat>)
    requires Numbered(m, refs) && k < |m.handlers| && forall j :: 0 <= j < |places| ==> places[j] < |refs|
  {
    forall p: nat :: p < |refs| && refs[p].flag != Skipped ==> BlockAt(m, refs, b, k, places, p)
  }

  ghost predicate BlockAt(m: Code, refs: seq<CodeRef>, b: seq<CatchFrame>, k: nat, places: seq<nat>, p: nat)
    requires Numbered(m, refs) && k < |m.handlers| && forall j :: 0 <= j < |places| ==> places[j] < |refs|
    requires p < |refs|
  {
    && (SpannedBy(b, Offset(m, refs, p)) <==> MatchAmong(m, refs, k, places, p))
    && forall j :: 0 <= j < |b| && Spans(b[j], Offset(m, refs, p)) ==> LeadsAmong(m, refs, b[j], k, places, p)
  }

  lemma SpannedConcat(a: seq<CatchFrame>, b: seq<CatchFrame>, pc: nat)
    ensures SpannedBy(a + b, pc) <==> SpannedBy(a, pc) || SpannedBy(b, pc)
  {
    if SpannedBy(a, pc) {
      var j :| 0 <= j < |a| && Spans(a[j], pc);
      assert Spans((a + b)[j], pc);
    }
    if SpannedBy(b, pc) {
      var j :| 0 <= j < |b| && Spans(b[j], pc);
      assert Spans((a + b)[|a| + j], pc);
    }
  }

  lemma BlockStep(m: Code, refs: seq<CodeRef>, b: seq<CatchFrame>, k: nat, places: seq<nat>, h: nat,
                  runs: seq<CatchFrame>, p: nat)
    requires Numbered(m, refs) && k < |m.handlers| && (forall j :: 0 <= j < |places| ==> places[j] < |refs|)
    requires p < |refs| && refs[p].flag != Skipped && h < |refs|
    requires BlockAt(m, refs, b, k, places, p) && RunsFor(m, refs, runs, k, h, |refs|)
    ensures BlockAt(m, refs, b + runs, k, places + [h], p)
  {
    hide Offset, Match, SpannedBy;
    var pc := Offset(m, refs, p);
    SpannedConcat(b, runs, pc);
    var more := places + [h];
    assert more[|places|] == h;
    assert forall j :: 0 <= j < |places| ==> more[j] == places[j];
    forall j | 0 <= j < |b + runs| && Spans((b + runs)[j], pc)
      ensures LeadsAmong(m, refs, (b + runs)[j], k, more, p)
    {
      if j < |b| {
        assert LeadsAmong(m, refs, b[j], k, places, p);
      } else {
        assert EntryFor(m, refs, runs[j - |b|], k, h, |refs|);
        SpannedWitness(runs, j - |b|, pc);
      }
    }
  }

  lemma SpannedWitness(table: seq<CatchFrame>, j: nat, pc: nat)
    requires j < |table| && Spans(table[j], pc)
    ensures SpannedBy(table, pc)
  {}

  method CatchBlock(ctx: JsrContext, offsets: array<nat>, length: nat, this_: Catch, ghost k: nat)
      returns (b: seq<CatchFrame>)
    requires Finished(ctx) && k < |ctx.m.handlers| && this_ == ctx.m.handlers[k] && offsets.Length == |ctx.refs|
    requires forall p :: 0 <= p < |ctx.refs| ==> offsets[p] == Offset(ctx.m, ctx.refs, p)
    requires length == Offset(ctx.m, ctx.refs, |ctx.refs|)
    ensures BlockFor(ctx.m, ctx.refs, b, k, Places(ctx.refs, ctx.m.handlers[k].handler))
            && AllOnOffsets(ctx.m, ctx.refs, b)
  {
    hide Places, OneRet, Offset, Refs, EndsKnown, StructuredAt, RunsFor, BlockAt, OnOffsets;
    var places, j := ctx.mapping[this_.handler], 0;
    b := [];
    BlockStart(ctx.m, ctx.refs, k);
    assert places[..0] == [];
    while j < |places|
      invariant j <= |places| && BlockFor(ctx.m, ctx.refs, b, k, places[..j]) && AllOnOffsets(ctx.m, ctx.refs, b)
    {
      var runs := CatchRuns(ctx, offsets, length, this_, k, places[j]);
      assert places[..j + 1] == places[..j] + [places[j]];
      forall p: nat | p < |ctx.refs| && ctx.refs[p].flag != Skipped
        ensures BlockAt(ctx.m, ctx.refs, b + runs, k, places[..j + 1], p)
      {
        BlockStep(ctx.m, ctx.refs, b, k, places[..j], places[j], runs, p);
      }
      b := b + runs;
      j := j + 1;
    }
    assert places[..|places|] == places;
  }

  lemma BlockStart(m: Code, refs: seq<CodeRef>, k: nat)
    requires Numbered(m, refs) && k < |m.handlers|
    ensures BlockFor(m, refs, [], k, [])
  {}

  // ---------- the whole table ----------

  /** The table consists of one block for each of the first `count` handlers, in their order. */
  ghost predicate TableFor(m: Code, refs: seq<CodeRef>, table: seq<CatchFrame>, count: nat)
    requires Numbered(m, refs) && count <= |m.handlers|
    decreases count
  {
    if count == 0 then table == []
    else
      exists n: nat :: n <= |table| && TableFor(m, refs, table[..n], count - 1)
        && BlockFor(m, refs, table[n..], count - 1, Places(refs, m.handlers[count - 1].handler))
  }

  /** Looks up the numbers of the instructions at an old entry's offsets. */
  method LookUp(m: Code, f: CatchFrame, codeData: array<int>, ghost c: Catch) returns (r: Catch)
    requires Sized(m) && Positive(m) && SameFrame(m, f, c) && c.end < |m.ops|
    requires codeData[..] == CodeData(m, |m.ops|)
    ensures r == c
  {
    hide OldOffset, CodeData;
    NumberAt(m, |m.ops|, c.start);
    NumberAt(m, |m.ops|, c.end);
    NumberAt(m, |m.ops|, c.handler);
    ghost var numbers := codeData[..];
    assert codeData[f.start] == numbers[f.start] && codeData[f.end] == numbers[f.end]
           && codeData[f.handler] == numbers[f.handler];
    r := Catch(codeData[f.start], codeData[f.end], codeData[f.handler], f.kind);
  }

  method FixupExceptionHandlers(ctx: JsrContext, frames: seq<CatchFrame>, codeData: array<int>, offsets: array<nat>,
                                length: nat)
      returns (table: seq<CatchFrame>)
    requires Finished(ctx) && offsets.Length == |ctx.refs|
    requires SameFrames(ctx.m, frames, ctx.m.handlers) && codeData[..] == CodeData(ctx.m, |ctx.m.ops|)
    requires forall p :: 0 <= p < |ctx.refs| ==> offsets[p] == Offset(ctx.m, ctx.refs, p)
    requires length == Offset(ctx.m, ctx.refs, |ctx.refs|)
    ensures TableFor(ctx.m, ctx.refs, table, |ctx.m.handlers|) && AllOnOffsets(ctx.m, ctx.refs, table)
  {
    hide Places, OneRet, Offset, Refs, EndsKnown, StructuredAt, BlockFor, SameFrame, CodeData, OnOffsets;
    table := [];
    var i := 0;
    while i < |frames|
      invariant i <= |frames| && TableFor(ctx.m, ctx.refs, table, i) && AllOnOffsets(ctx.m, ctx.refs, table)
    {
      var this_ := LookUp(ctx.m, frames[i], codeData, ctx.m.handlers[i]);
      var b := CatchBlock(ctx, offsets, length, this_, i);
      assert (table + b)[..|table|] == table && (table + b)[|table|..] == b;
      table := table + b;
      i := i + 1;
    }
  }

  // ---------- finding a handler ----------

  /** The first old handler, among the first `count`, that protects `i` and catches. */
  function OldHandler(m: Code, i: nat, caught: nat -> bool, count: nat): (r: Option<nat>)
    requires count <= |m.handlers|
    ensures r.Some? ==> r.value < count && m.handlers[r.value].Protects(i)
  {
    if count == 0 then None
    else
      var r := OldHandler(m, i, caught, count - 1);
      if r.Some? then r
      else if m.handlers[count - 1].Protects(i) && caught(m.handlers[count - 1].kind) then Some(count - 1)
      else None
  }

  /** The handler of the first new entry that covers `pc` and catches. */
  function NewHandler(table: seq<CatchFrame>, pc: nat, caught: nat -> bool): Option<nat> {
    if table == [] then None
    else if Spans(table[0], pc) && caught(table[0].kind) then Some(table[0].handler)
    else NewHandler(table[1..], pc, caught)
  }

  lemma {:induction false} NewHandlerConcat(a: seq<CatchFrame>, b: seq<CatchFrame>, pc: nat, caught: nat -> bool)
    ensures NewHandler(a + b, pc, caught) == if NewHandler(a, pc, caught).Some? then NewHandler(a, pc, caught)
            else NewHandler(b, pc, caught)
  {
    if a == [] {
      assert a + b == b;
    } else {
      assert (a + b)[1..] == a[1..] + b;
      NewHandlerConcat(a[1..], b, pc, caught);
    }
  }

  /** In a block that covers `pc`, with one kind and one handler, the first entry decides. */
  lemma {:induction false} UniformBlock(b: seq<CatchFrame>, pc: nat, caught: nat -> bool, kind: nat, handler: nat)
    requires forall j :: 0 <= j < |b| && Spans(b[j], pc) ==> b[j].kind == kind && b[j].handler == handler
    ensures NewHandler(b, pc, caught) == if SpannedBy(b, pc) && caught(kind) then Some(handler) else None
  {
    if b != [] {
      UniformBlock(b[1..], pc, caught, kind, handler);
      assert b == [b[0]] + b[1..];
      SpannedConcat([b[0]], b[1..], pc);
      SpannedAppend([], b[0], pc);
      assert [] + [b[0]] == [b[0]];
    }
  }

  /** The new table sends an exception to the one eligible copy of the handler that the old table chose. */
  lemma {:induction false} SameHandler(m: Code, refs: seq<CodeRef>, next: map<nat, nat>, table: seq<CatchFrame>,
                                       count: nat,
                                       p: nat, caught: nat -> bool)
    requires Built(m, refs, next) && count <= |m.handlers| && TableFor(m, refs, table, count)
    requires p < |refs| && refs[p].flag != Skipped
    ensures var k := OldHandler(m, refs[p].inumber, caught, count);
            var r := NewHandler(table, Offset(m, refs, p), caught);
            if k.None? then r.None?
            else Found(m, refs, refs[p].sub, m.handlers[k.value].handler)
                 && r == Some(Offset(m, refs, TargetPlace(refs, refs[p].sub, m.handlers[k.value].handler).value))
    decreases count
  {
    hide Offset, Refs, BlockFor, Structured, EndsKnown, Places, NewHandler, TargetPlace;
    var pc := Offset(m, refs, p);
    if count == 0 {
      assert NewHandler([], pc, caught).None? by { EmptyTable(pc, caught); }
    } else {
      var n: nat :| n <= |table| && TableFor(m, refs, table[..n], count - 1)
        && BlockFor(m, refs, table[n..], count - 1, Places(refs, m.handlers[count - 1].handler));
      SameHandler(m, refs, next, table[..n], count - 1, p, caught);
      assert table == table[..n] + table[n..];
      NewHandlerConcat(table[..n], table[n..], pc, caught);
      BlockHandler(m, refs, next, table[n..], count - 1, p, caught);
    }
  }

  lemma EmptyTable(pc: nat, caught: nat -> bool)
    ensures NewHandler([], pc, caught).None?
  {}

  lemma BlockHandler(m: Code, refs: seq<CodeRef>, next: map<nat, nat>, b: seq<CatchFrame>, k: nat, p: nat,
                     caught: nat -> bool)
    requires Built(m, refs, next) && k < |m.handlers| && p < |refs| && refs[p].flag != Skipped
    requires BlockFor(m, refs, b, k, Places(refs, m.handlers[k].handler))
    ensures var c, s, t := m.handlers[k], refs[p].sub, m.handlers[k].handler;
            if c.Protects(refs[p].inumber) && caught(c.kind)
            then Found(m, refs, s, t) && NewHandler(b, Offset(m, refs, p), caught)
              == Some(Offset(m, refs, TargetPlace(refs, s, t).value))
            else NewHandler(b, Offset(m, refs, p), caught).None?
  {
    hide Offset, Refs, EndsKnown, Places, NewHandler, TargetPlace, SpannedBy, Encloses, OneRet;
    var c, s, t, pc := m.handlers[k], refs[p].sub, m.handlers[k].handler, Offset(m, refs, p);
    var places := Places(refs, t);
    assert BlockAt(m, refs, b, k, places, p);
    if c.Protects(refs[p].inumber) {
      BuiltAt(m, refs, next, p);
      var q := OutwardFound(m, refs, next, p, t);
      assert q in places;
      forall j | 0 <= j < |b| && Spans(b[j], pc)
        ensures b[j].kind == c.kind && b[j].handler == Offset(m, refs, q)
      {
        assert LeadsAmong(m, refs, b[j], k, places, p);
        var i :| 0 <= i < |places| && Match(m, refs, k, places[i], p) && b[j].handler == Offset(m, refs, places[i]);
        assert Eligible(refs, s, t, places[i]);
      }
      UniformBlock(b, pc, caught, c.kind, Offset(m, refs, q));
      var i :| 0 <= i < |places| && places[i] == q;
      assert Match(m, refs, k, places[i], p);
    } else {
      UniformBlock(b, pc, caught, c.kind, 0);
    }
  }
}
