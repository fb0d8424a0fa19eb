/** Virtual method tables: a class's table extends its superclass's, slot by slot. */
module MethodTables {
  import opened Wrappers
  import Probing
  import StringIds

  class MethodBlock {
    const id: nat
    const isStatic: bool
    const isPrivate: bool
    const isInit: bool
    /** Protected or public, so inherited outside the package too. */
    const isOpen: bool
    const package: nat
    var offset: nat

    constructor (id: nat, isStatic: bool, isPrivate: bool, isInit: bool, isOpen: bool, package: nat)
      ensures this.id == id && this.isStatic == isStatic && this.isPrivate == isPrivate && this.isInit == isInit
      ensures this.isOpen == isOpen && this.package == package && offset == 0
    {
      this.id, this.isStatic, this.isPrivate, this.isInit := id, isStatic, isPrivate, isInit;
      this.isOpen, this.package, offset := isOpen, package, 0;
    }

    /** Dispatched through the table. */
    predicate Virtual() {
      !isStatic && !isPrivate && !isInit
    }
  }

  type Table = seq<MethodBlock?>

  const MAX_SLOTS: nat := 65535

  // ---------- overriding ----------

  /** A method of a class in `package` takes the place of an inherited one. */
  predicate Overrides(m: MethodBlock, inherited: MethodBlock?, package: nat) {
    inherited != null && inherited.id == m.id && !inherited.isPrivate
    && (inherited.isOpen || inherited.package == package)
  }

  /** The first inherited slot, from slot `k` on, whose method is overridden; the size if there is none. */
  function Overridden(sup: Table, m: MethodBlock, package: nat, k: nat): (r: nat)
    requires k <= |sup|
    ensures k <= r <= |sup|
    ensures r < |sup| ==> Overrides(m, sup[r], package)
    ensures forall q :: k <= q < r ==> !Overrides(m, sup[q], package)
    decreases |sup| - k
  {
    if k == |sup| || Overrides(m, sup[k], package) then k else Overridden(sup, m, package, k + 1)
  }

  predicate IsNew(sup: Table, m: MethodBlock, package: nat) {
    m.Virtual() && Overridden(sup, m, package, 0) == |sup|
  }

  /** How many of the first `n` methods need a slot of their own. */
  function NewMethods(sup: Table, methods: seq<MethodBlock>, package: nat, n: nat): (r: nat)
    requires n <= |methods|
    ensures r <= n
  {
    if n == 0 then 0
    else NewMethods(sup, methods, package, n - 1) + if IsNew(sup, methods[n - 1], package) then 1 else 0
  }

  /** The slot of the `j`-th method: the one it overrides, or the next free one; 0 if it has none. */
  function SlotOf(sup: Table, start: nat, methods: seq<MethodBlock>, package: nat, j: nat): nat
    requires j < |methods|
  {
    if !methods[j].Virtual() then 0
    else
      var k := Overridden(sup, methods[j], package, 0);
      if k < |sup| then k else start + NewMethods(sup, methods, package, j)
  }

  /** Each entry is recorded in its method as its own slot, and slot 0 is not used. */
  ghost predicate TableOk(table: Table)
    reads set k | 0 <= k < |table| :: table[k]
  {
    && table != [] && table[0] == null
    && forall k :: 0 <= k < |table| && table[k] != null ==> table[k].offset == k
  }

  lemma {:induction false} NewMethodsMonotone(sup: Table, methods: seq<MethodBlock>, package: nat, i: nat, j: nat)
    requires i <= j <= |methods|
    ensures NewMethods(sup, methods, package, i) <= NewMethods(sup, methods, package, j)
    decreases j
  {
    if i < j {
      NewMethodsMonotone(sup, methods, package, i, j - 1);
    }
  }

  /** Methods without an inherited slot get different slots, past all inherited ones. */
  lemma NewSlotsDiffer(sup: Table, start: nat, methods: seq<MethodBlock>, package: nat, i: nat, j: nat)
    requires i < j < |methods| && |sup| <= start
    requires IsNew(sup, methods[i], package) && methods[j].Virtual()
    ensures SlotOf(sup, start, methods, package, i) != SlotOf(sup, start, methods, package, j)
    ensures SlotOf(sup, start, methods, package, i) >= |sup|
  {
    NewMethodsMonotone(sup, methods, package, i + 1, j);
  }

  /** If no two methods have the same name and signature, no two share a slot. */
  lemma SlotsDiffer(sup: Table, start: nat, methods: seq<MethodBlock>, package: nat, i: nat, j: nat)
    requires i < j < |methods| && |sup| <= start
    requires methods[i].Virtual() && methods[j].Virtual() && methods[i].id != methods[j].id
    ensures SlotOf(sup, start, methods, package, i) != SlotOf(sup, start, methods, package, j)
  {
    NewMethodsMonotone(sup, methods, package, i, j);
    if IsNew(sup, methods[i], package) {
      NewSlotsDiffer(sup, start, methods, package, i, j);
    }
  }

  // ---------- resolving the methods of a class ----------

  class ClassBlock {
    const methods: seq<MethodBlock>
    const isInterface: bool
    const package: nat
    var table: Table

    constructor (methods: seq<MethodBlock>, isInterface: bool, package: nat)
      ensures this.methods == methods && this.isInterface == isInterface && this.package == package && table == []
    {
      this.methods, this.isInterface, this.package, table := methods, isInterface, package, [];
    }

    method FindOverridden(sup: Table, mb: MethodBlock) returns (count: nat)
      ensures count == Overridden(sup, mb, package, 0)
    {
      count := 0;
      while count < |sup| && !Overrides(mb, sup[count], package)
        invariant count <= |sup| && Overridden(sup, mb, package, 0) == Overridden(sup, mb, package, count)
      {
        count := count + 1;
      }
    }

    /** The superclass's table, or that of a class without one. */
    ghost predicate Inheritable(sup: Table, start: nat)
      reads set k | 0 <= k < |sup| :: sup[k]
    {
      && (forall i, j :: 0 <= i < j < |methods| ==> methods[i] != methods[j])
      && (forall j :: 0 <= j < |methods| ==> methods[j] !in sup)
      && (if sup == [] then start == 1 else TableOk(sup) && start == |sup|)
    }

    /** Gives every virtual method its slot. */
    method AssignSlots(sup: Table, start: nat) returns (mslot: nat)
      requires Inheritable(sup, start)
      modifies methods`offset
      ensures mslot == start + NewMethods(sup, methods, package, |methods|) && Inheritable(sup, start)
      ensures forall j :: 0 <= j < |methods| ==> methods[j].offset == SlotOf(sup, start, methods, package, j)
    {
      hide Overridden;
      var size := 0;
      while size < |methods|
        invariant size <= |methods| && forall j :: 0 <= j < size ==> methods[j].offset == 0
        invariant Inheritable(sup, start)
      {
        methods[size].offset := 0;
        size := size + 1;
      }
      mslot, size := start, 0;
      while size < |methods|
        invariant size <= |methods| && mslot == start + NewMethods(sup, methods, package, size)
        invariant forall j :: 0 <= j < size ==> methods[j].offset == SlotOf(sup, start, methods, package, j)
        invariant forall j :: size <= j < |methods| ==> methods[j].offset == 0
        invariant Inheritable(sup, start)
      {
        var mb := methods[size];
        if mb.Virtual() {
          var count := FindOverridden(sup, mb);
          if count < |sup| {
            mb.offset := sup[count].offset;
          }
          if mb.offset == 0 {
            mb.offset := mslot;
            mslot := mslot + 1;
          }
        }
        size := size + 1;
      }
    }

    /** Fills in the table: inherited entries, overwritten by this class's own. */
    method FillTable(sup: Table, start: nat, mslot: nat) returns (newTable: Table)
      requires Inheritable(sup, start) && mslot == start + NewMethods(sup, methods, package, |methods|)
      requires forall j :: 0 <= j < |methods| ==> methods[j].offset == SlotOf(sup, start, methods, package, j)
      ensures |newTable| == mslot
      ensures forall k :: 0 <= k < mslot ==> Entry(sup, start, methods, package, k, newTable[k], |methods|)
    {
      hide Overridden, SlotOf, TableOk;
      newTable := seq(mslot, k => if 0 <= k < |sup| then sup[k] else null);
      var size := 0;
      while size < |methods|
        invariant size <= |methods| && |newTable| == mslot
        invariant forall k :: 0 <= k < mslot ==> Entry(sup, start, methods, package, k, newTable[k], size)
      {
        var offset := methods[size].offset;
        SlotInTable(sup, start, methods, package, size);
        ghost var before := newTable;
        if offset > 0 {
          newTable := newTable[offset := methods[size]];
        }
        forall k | 0 <= k < mslot
          ensures Entry(sup, start, methods, package, k, newTable[k], size + 1)
        {
          EntryStep(sup, start, methods, package, k, before[k], size);
        }
        size := size + 1;
      }
    }

    /** Resolves the methods of a class, given its superclass; fails if there are too many slots. */
    method ResolveMethods(superclass: ClassBlock?) returns (ok: bool)
      requires superclass != null ==> superclass != this && TableOk(superclass.table)
      requires forall i, j :: 0 <= i < j < |methods| ==> methods[i] != methods[j]
      requires superclass != null ==> forall j :: 0 <= j < |methods| ==> methods[j] !in superclass.table
      modifies this`table, methods`offset
      ensures isInterface ==> ok && table == [] && forall j :: 0 <= j < |methods| ==> methods[j].offset == j
      ensures !isInterface ==> Resolved(if superclass == null then [] else superclass.table, ok, old(table))
    {
      hide TableOk, SlotOf, Entry;
      if isInterface {
        table := [];
        var size := 0;
        while size < |methods|
          invariant size <= |methods| && table == [] && forall j :: 0 <= j < size ==> methods[j].offset == j
        {
          methods[size].offset := size;
          size := size + 1;
        }
        return true;
      }
      var sup, start: nat := [], 1;
      if superclass != null {
        sup, start := superclass.table, |superclass.table|;
        TableNonempty(sup);
      }
      var mslot := AssignSlots(sup, start);
      if mslot > MAX_SLOTS {
        return false;
      }
      table := FillTable(sup, start, mslot);
      TableIsOk(sup, start);
      ok := true;
    }

    /** What resolving a class achieves, over the table of its superclass. */
    ghost predicate Resolved(sup: Table, ok: bool, before: Table)
      reads `table, methods, set k | 0 <= k < |table| :: table[k]
    {
      var start := if sup == [] then 1 else |sup|;
      var mslot := start + NewMethods(sup, methods, package, |methods|);
      && (ok <==> mslot <= 65535)
      && (forall j :: 0 <= j < |methods| ==> methods[j].offset == SlotOf(sup, start, methods, package, j))
      && (!ok ==> table == before)
      && (ok ==> |table| == mslot && TableOk(table))
      && (ok ==> forall k :: 0 <= k < mslot ==> Entry(sup, start, methods, package, k, table[k], |methods|))
    }

    lemma TableIsOk(sup: Table, start: nat)
      requires Inheritable(sup, start) && |table| == start + NewMethods(sup, methods, package, |methods|)
      requires forall j :: 0 <= j < |methods| ==> methods[j].offset == SlotOf(sup, start, methods, package, j)
      requires forall k :: 0 <= k < |table| ==> Entry(sup, start, methods, package, k, table[k], |methods|)
      ensures TableOk(table)
    {
      hide SlotOf;
    }
  }

  lemma TableNonempty(table: Table)
    requires TableOk(table)
    ensures table != []
  {}

  /** Entry `k` after the first `n` methods have been entered: the last of them that has slot `k`, or
      the inherited one. */
  ghost predicate Entry(sup: Table, start: nat, methods: seq<MethodBlock>, package: nat, k: nat, m: MethodBlock?,
                        n: nat)
    requires n <= |methods|
  {
    if exists j :: 0 <= j < n && SlotOf(sup, start, methods, package, j) == k > 0
    then exists j :: 0 <= j < n && SlotOf(sup, start, methods, package, j) == k && m == methods[j]
                     && forall i :: j < i < n ==> SlotOf(sup, start, methods, package, i) != k
    else m == if k < |sup| then sup[k] else null
  }

  lemma EntryStep(sup: Table, start: nat, methods: seq<MethodBlock>, package: nat, k: nat, m: MethodBlock?, n: nat)
    requires n < |methods| && Entry(sup, start, methods, package, k, m, n)
    ensures Entry(sup, start, methods, package, k,
                  if SlotOf(sup, start, methods, package, n) == k > 0 then methods[n] else m, n + 1)
  {
    hide SlotOf;
  }

  lemma SlotInTable(sup: Table, start: nat, methods: seq<MethodBlock>, package: nat, j: nat)
    requires j < |methods| && |sup| <= start && 0 < start
    ensures SlotOf(sup, start, methods, package, j) < start + NewMethods(sup, methods, package, |methods|)
  {
    NewMethodsMonotone(sup, methods, package, j + 1, |methods|);
  }

  // ---------- what callers rely on ----------

  /** Every slot of `sup` holds, in `table`, a method of the same name and signature. */
  predicate Compatible(sup: Table, table: Table) {
    |sup| <= |table| && forall k :: 0 <= k < |sup| && sup[k] != null ==> table[k] != null && table[k].id == sup[k].id
  }

  lemma ResolvedIsCompatible(c: ClassBlock, sup: Table, before: Table)
    requires c.Resolved(sup, true, before)
    ensures Compatible(sup, c.table)
  {
    hide NewMethods, TableOk;
    var start := if sup == [] then 1 else |sup|;
    forall k | 0 <= k < |sup| && sup[k] != null
      ensures c.table[k] != null && c.table[k].id == sup[k].id
    {
      assert Entry(sup, start, c.methods, c.package, k, c.table[k], |c.methods|);
      InheritedSlot(sup, start, c.methods, c.package, k, c.table[k]);
    }
  }

  /** An inherited slot keeps its method, or gets one that overrides it. */
  lemma InheritedSlot(sup: Table, start: nat, methods: seq<MethodBlock>, package: nat, k: nat, m: MethodBlock?)
    requires k < |sup| <= start && Entry(sup, start, methods, package, k, m, |methods|)
    ensures m == sup[k] || (m != null && m in methods && m.Virtual() && Overrides(m, sup[k], package))
  {
    hide NewMethods;
  }

  /** A class's own virtual methods are in its table, each at its recorded slot. */
  lemma OwnMethodInTable(c: ClassBlock, sup: Table, before: Table, j: nat)
    requires c.Resolved(sup, true, before) && j < |c.methods| && c.methods[j].Virtual()
    requires sup == [] || sup[0] == null
    requires forall i :: 0 <= i < |c.methods| && i != j && c.methods[i].Virtual() ==> c.methods[i].id != c.methods[j].id
    ensures 0 < c.methods[j].offset < |c.table| && c.table[c.methods[j].offset] == c.methods[j]
  {
    hide NewMethods, TableOk, Overridden;
    var start := if sup == [] then 1 else |sup|;
    SlotInTable(sup, start, c.methods, c.package, j);
    var k := SlotOf(sup, start, c.methods, c.package, j);
    assert k > 0;
    forall i | 0 <= i < |c.methods| && i != j
      ensures SlotOf(sup, start, c.methods, c.package, i) != k
    {
      if c.methods[i].Virtual() {
        if i < j {
          SlotsDiffer(sup, start, c.methods, c.package, i, j);
        } else {
          SlotsDiffer(sup, start, c.methods, c.package, j, i);
        }
      }
    }
    hide SlotOf;
    assert Entry(sup, start, c.methods, c.package, k, c.table[k], |c.methods|);
  }

  /** A method takes over exactly one of the slots that it overrides, the first: a package-private
      method and its public successor may fill two slots, and then the second is left as it was. */
  lemma OnlyFirstReplaced(c: ClassBlock, sup: Table, before: Table, j: nat, k: nat)
    requires c.Resolved(sup, true, before) && j < |c.methods| && c.methods[j].Virtual() && c.methods[j] !in sup
    requires sup != [] && sup[0] == null && k < |sup| && Overrides(c.methods[j], sup[k], c.package)
    requires forall i :: 0 <= i < |c.methods| && i != j && c.methods[i].Virtual() ==> c.methods[i].id != c.methods[j].id
    ensures c.table[k] == c.methods[j] <==> forall q :: 0 <= q < k ==> !Overrides(c.methods[j], sup[q], c.package)
  {
    hide NewMethods, TableOk, SlotOf;
    OwnMethodInTable(c, sup, before, j);
    var first := Overridden(sup, c.methods[j], c.package, 0);
    FirstSlot(sup, |sup|, c.methods, c.package, j, k);
    assert Entry(sup, |sup|, c.methods, c.package, k, c.table[k], |c.methods|);
    assert c.methods[j].offset == first;
  }

  /** Which inherited slots a method that is dispatched through the table takes over, in terms of what was
      declared: the first one of its name and type whose method is not private, and protected, public or
      of this package. */
  lemma SlotTakenIff(c: ClassBlock, sup: Table, before: Table, j: nat, k: nat)
    requires c.Resolved(sup, true, before) && j < |c.methods| && c.methods[j] !in sup
    requires !c.methods[j].isStatic && !c.methods[j].isPrivate && !c.methods[j].isInit
    requires sup != [] && sup[0] == null && k < |sup| && sup[k] != null
    requires forall i :: 0 <= i < |c.methods| && i != j && c.methods[i].Virtual() ==> c.methods[i].id != c.methods[j].id
    ensures c.table[k] == c.methods[j] <==>
            && sup[k].id == c.methods[j].id && !sup[k].isPrivate && (sup[k].isOpen || sup[k].package == c.package)
            && forall q :: 0 <= q < k && sup[q] != null && sup[q].id == c.methods[j].id && !sup[q].isPrivate ==>
                 !sup[q].isOpen && sup[q].package != c.package
  {
    hide TableOk;
    var m := c.methods[j];
    if Overrides(m, sup[k], c.package) {
      OnlyFirstReplaced(c, sup, before, j, k);
      forall q | 0 <= q < k
        ensures Overrides(m, sup[q], c.package) <==>
                sup[q] != null && sup[q].id == m.id && !sup[q].isPrivate
                && (sup[q].isOpen || sup[q].package == c.package)
      {
      }
    } else {
      assert Entry(sup, |sup|, c.methods, c.package, k, c.table[k], |c.methods|);
      InheritedSlot(sup, |sup|, c.methods, c.package, k, c.table[k]);
    }
  }

  /** A slot keeps its method where no method of the class may override it: one of another name or type,
      private, or package-private in another package. */
  lemma SlotKept(c: ClassBlock, sup: Table, before: Table, k: nat)
    requires c.Resolved(sup, true, before) && k < |sup| && sup[k] != null
    requires (forall j :: 0 <= j < |c.methods| && c.methods[j].id == sup[k].id ==>
                c.methods[j].isStatic || c.methods[j].isPrivate || c.methods[j].isInit)
             || sup[k].isPrivate || (!sup[k].isOpen && sup[k].package != c.package)
    ensures c.table[k] == sup[k]
  {
    hide TableOk;
    assert Entry(sup, |sup|, c.methods, c.package, k, c.table[k], |c.methods|);
    InheritedSlot(sup, |sup|, c.methods, c.package, k, c.table[k]);
  }

  /** Exactly static and private methods and constructors are left without a slot. */
  lemma NoSlotIff(c: ClassBlock, sup: Table, ok: bool, before: Table, j: nat)
    requires c.Resolved(sup, ok, before) && j < |c.methods| && (sup == [] || sup[0] == null)
    ensures c.methods[j].offset == 0 <==> c.methods[j].isStatic || c.methods[j].isPrivate || c.methods[j].isInit
  {
    hide TableOk, NewMethods;
  }

  /** The table of a class with one virtual method. */
  lemma OneMethodTable(c: ClassBlock, sup: Table, ok: bool, before: Table)
    requires c.Resolved(sup, ok, before) && |c.methods| == 1 && c.methods[0].Virtual() && |sup| < 10
    requires sup == [] || sup[0] == null
    ensures ok
    ensures var m, k := c.methods[0], Overridden(sup, c.methods[0], c.package, 0);
            c.table == if k < |sup| then sup[k := m] else (if sup == [] then [null] else sup) + [m]
  {
    hide TableOk, Overridden;
    var start := if sup == [] then 1 else |sup|;
    var m, k := c.methods[0], Overridden(sup, c.methods[0], c.package, 0);
    assert NewMethods(sup, c.methods, c.package, 1) == NewMethods(sup, c.methods, c.package, 0) + if k == |sup| then 1
           else 0;
    hide NewMethods;
    var slot := SlotOf(sup, start, c.methods, c.package, 0);
    forall i: nat | i < |c.table|
      ensures c.table[i] == if slot == i > 0 then m else if i < |sup| then sup[i] else null
    {
      assert Entry(sup, start, c.methods, c.package, i, c.table[i], 1);
    }
  }

  /** A package-private method in package 1, a public one of the same name and type below it in package
      2, and below that another in package 1, which overrides both but takes over the first slot only. */
  method SecondSlotKept(id: nat) returns (a: MethodBlock, b: MethodBlock, c: MethodBlock, lowest: ClassBlock)
    ensures lowest.methods == [c] && lowest.package == 1 && lowest.table == [null, c, b]
    ensures b != c && Overrides(c, a, 1) && Overrides(c, b, 1)
  {
    hide SlotOf, Entry, NewMethods, Overridden, TableOk;
    var second;
    a, b, second := TwoSlots(id);
    c := new MethodBlock(id, false, false, false, true, 1);
    lowest := new ClassBlock([c], false, 1);
    FirstOverridden([null, a, b], c, 1, 1);
    hide Overrides;
    var ok := ResolveOne(lowest, second, c);
    assert [null, a, b][1 := c] == [null, c, b];
  }

  /** Across packages, a method of the same name and type gets a slot of its own. */
  method TwoSlots(id: nat) returns (a: MethodBlock, b: MethodBlock, second: ClassBlock)
    ensures fresh(a) && fresh(b) && fresh(second) && a.id == b.id == id && TableOk(second.table)
            && second.table == [null, a, b]
    ensures !a.isOpen && a.package == 1 && !a.isPrivate && b.isOpen && b.package == 2 && !b.isPrivate
  {
    hide SlotOf, Entry, NewMethods, Overridden, TableOk;
    a := new MethodBlock(id, false, false, false, false, 1);
    b := new MethodBlock(id, false, false, false, true, 2);
    var first := new ClassBlock([a], false, 1);
    second := new ClassBlock([b], false, 2);
    FirstOverridden([], a, 1, 0);
    FirstOverridden([null, a], b, 2, 2);
    hide Overrides;
    var ok := ResolveOne(first, null, a);
    ok := ResolveOne(second, first, b);
  }

  lemma FirstOverridden(sup: Table, m: MethodBlock, package: nat, k: nat)
    requires k <= |sup| && (k < |sup| ==> Overrides(m, sup[k], package))
    requires forall q :: 0 <= q < k ==> !Overrides(m, sup[q], package)
    ensures Overridden(sup, m, package, 0) == k
  {}

  method ResolveOne(c: ClassBlock, superclass: ClassBlock?, m: MethodBlock) returns (ok: bool)
    requires c.methods == [m] && m.Virtual() && !c.isInterface
    requires superclass != null ==>
               superclass != c && TableOk(superclass.table) && m !in superclass.table && |superclass.table| < 10
    modifies c`table, m`offset
    ensures ok && TableOk(c.table)
    ensures var sup := if superclass == null then [] else superclass.table;
            var k := Overridden(sup, m, c.package, 0);
            c.table == if k < |sup| then sup[k := m] else (if sup == [] then [null] else sup) + [m]
  {
    hide SlotOf, Entry, NewMethods, Overridden;
    ghost var sup := if superclass == null then [] else superclass.table;
    ghost var before := c.table;
    ok := c.ResolveMethods(superclass);
    OneMethodTable(c, sup, ok, before);
  }

  lemma FirstSlot(sup: Table, start: nat, methods: seq<MethodBlock>, package: nat, j: nat, k: nat)
    requires j < |methods| && methods[j].Virtual() && k < |sup| && Overrides(methods[j], sup[k], package)
    ensures SlotOf(sup, start, methods, package, j) == Overridden(sup, methods[j], package, 0) <= k
  {}

  /** Down any chain of subclasses, a slot of the first class holds, in the last one, a method of the
      same name and signature. */
  lemma {:induction false} ChainCompatible(tables: seq<Table>)
    requires tables != [] && forall i :: 0 < i < |tables| ==> Compatible(tables[i - 1], tables[i])
    ensures Compatible(tables[0], tables[|tables| - 1])
    decreases |tables|
  {
    if |tables| > 1 {
      var k := |tables| - 1;
      ChainCompatible(tables[..k]);
    }
  }

  // ---------- names and signatures as one number ----------

  /** The identifiers of a name and of a signature in one word. */
  function NameAndTypeId(nameKey: nat, typeKey: nat): nat {
    nameKey * 0x1_0000 + typeKey
  }

  /** Equal numbers mean the same name and the same signature. */
  lemma NameAndTypeUnique(tab: seq<seq<Probing.Slot>>, ids: map<Str, nat>, n1: Str, t1: Str,
                          n2: Str, t2: Str)
    requires StringIds.IdsOk(tab, ids) && |tab| <= StringIds.MAX_BUCKETS
    requires n1 in ids && t1 in ids && n2 in ids && t2 in ids
    ensures NameAndTypeId(ids[n1], ids[t1]) == NameAndTypeId(ids[n2], ids[t2]) <==> n1 == n2 && t1 == t2
    ensures NameAndTypeId(ids[n1], ids[t1]) < 0x1_0000_0000
  {
    SmallId(tab, ids, n1);
    SmallId(tab, ids, t1);
    SmallId(tab, ids, t2);
    if ids[n1] == ids[n2] {
      StringIds.IdsUnique(tab, ids, n1, n2);
    }
    if ids[t1] == ids[t2] {
      StringIds.IdsUnique(tab, ids, t1, t2);
    }
  }

  lemma SmallId(tab: seq<seq<Probing.Slot>>, ids: map<Str, nat>, s: Str)
    requires StringIds.IdsOk(tab, ids) && |tab| <= StringIds.MAX_BUCKETS && s in ids
    ensures 1 <= ids[s] <= 32048
  {
    assert StringIds.Holds(tab, ids[s], s);
  }
}
