/** Classes in stack maps: the index that is written denotes, in the new pool, the class that was meant. */
module TypeCodes {
  import opened Wrappers
  import opened ClassFile
  import CodeAttribute

  /** The information of a map entry stands for a class: an index in the old pool, or the complement of
      a number among the new classes. */
  predicate StandsFor(pool: seq<PoolEntry>, classes: seq<Str>, info: int, name: Str) {
    if info >= 0 then IsClass(pool, info) && ClassOf(pool, info) == name
    else -1 - info < |classes| && classes[-1 - info] == name
  }

  /** The first entry for a class, or -1. */
  method CheckClassConstant(pool: seq<PoolEntry>, name: Str) returns (r: int)
    requires PoolOk(pool)
    ensures r >= 0 ==> IsClass(pool, r) && ClassOf(pool, r) == name
    ensures r < 0 ==> r == -1 && forall i :: 0 <= i < |pool| && IsClass(pool, i) ==> ClassOf(pool, i) != name
  {
    var i := 0;
    while i < |pool|
      invariant i <= |pool| && forall k :: 0 <= k < i && IsClass(pool, k) ==> ClassOf(pool, k) != name
    {
      assert EntryOk(pool, i);
      match pool[i] {
        case ClassNamed(n) =>
          if n == name {
            return i;
          }
        case ClassAt(utf8) =>
          if pool[utf8].text == name {
            return i;
          }
        case _ =>
      }
      i := i + 1;
    }
    r := -1;
  }

  /** The new classes of a class file, which grow as stack maps need them. */
  class NewClasses {
    const pool: seq<PoolEntry>
    var classes: seq<Str>

    constructor (pool: seq<PoolEntry>)
      ensures this.pool == pool && classes == []
    {
      this.pool, classes := pool, [];
    }

    /** The information for a class: a new class is added only if neither pool nor list has it. */
    method GetTypeCode(name: Str) returns (info: int)
      requires PoolOk(pool)
      modifies `classes
      ensures StandsFor(pool, classes, info, name)
      ensures classes == old(classes) || classes == old(classes) + [name]
      ensures classes != old(classes) ==> info == -1 - |old(classes)| && name !in old(classes)
      ensures classes != old(classes) ==> forall i :: 0 <= i < |pool| && IsClass(pool, i) ==> ClassOf(pool, i) != name
    {
      var i := CheckClassConstant(pool, name);
      if i >= 0 {
        return i;
      }
      var k := 0;
      while k < |classes|
        invariant k <= |classes| && name !in classes[..k] && classes == old(classes)
      {
        if classes[k] == name {
          return -1 - k;
        }
        k := k + 1;
      }
      classes := classes + [name];
      info := -1 - k;
    }
  }

  /** What stood for a class goes on standing for it. */
  lemma StandsOn(pool: seq<PoolEntry>, classes: seq<Str>, more: seq<Str>, info: int, name: Str)
    requires classes <= more && StandsFor(pool, classes, info, name)
    ensures StandsFor(pool, more, info, name)
  {}

  /** The two bytes written for an entry of kind Object are an index that denotes its class in the new pool. */
  lemma ObjectEntryResolves(pool: seq<PoolEntry>, newTexts: seq<Str>, classes: seq<Str>, info: int, name: Str)
      returns (i: nat)
    requires PoolOk(pool) && StandsFor(pool, classes, info, name)
    requires forall j :: 0 <= j < |classes| ==> HasText(pool, newTexts, classes[j])
    ensures var new_ := NewPool(pool, newTexts, classes);
            && IsClass(new_, i) && ClassOf(new_, i) == name
            && CodeAttribute.EntryBytes(CodeAttribute.MapEntry(CodeAttribute.ITEM_OBJECT, info),
               LastNotUtf8(pool, |pool|))
               == CodeAttribute.U1(CodeAttribute.ITEM_OBJECT) + CodeAttribute.U2(i)
  {
    hide FindText, TextIndex, NewPool, EntryOk, HasText;
    if info >= 0 {
      i := info;
      ClassKept(pool, newTexts, classes, info);
    } else {
      i := LastNotUtf8(pool, |pool|) + 1 + (-1 - info);
      NewClassResolves(pool, newTexts, classes, -1 - info);
    }
  }
}
