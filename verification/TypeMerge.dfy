/** The verifier's types and their merge, which is the least upper bound in an order where
    `Bogus` is on top, and assignability, which is that order except toward interfaces. */
module TypeMerge {
  import opened ClassTree

  datatype Item =
    | Bogus | Void | Integer | Float | Double | Double2 | Long | Long2
    | InitObject | Object | NewObject | ReturnAddress | Boolean | Byte | Short | Char

  /** What accompanies an item: the class of an object, or an instruction number. */
  datatype Extra = NoExtra | Class(cls: ClassClass) | Instruction(inumber: nat)

  datatype FullInfo = FullInfo(item: Item, indirection: nat, extra: Extra)

  const MAX_ARRAY_DIMENSIONS: nat := 255
  const NULL_FULLINFO := FullInfo(Object, 0, NoExtra)
  const BOGUS_FULLINFO := FullInfo(Bogus, 0, NoExtra)

  function ObjectArray(obj: ClassClass, indirection: nat): FullInfo {
    FullInfo(Object, indirection, Class(obj))
  }

  /** The merge of two types; `forAssignment`, it is equal to `target` when `value` may be assigned
      to it. */
  function Merge(obj: ClassClass, value: FullInfo, target: FullInfo, forAssignment: bool): FullInfo
    decreases value.indirection + target.indirection
  {
    if value == target then value
    else if value.indirection == 0 && value.item != Object then BOGUS_FULLINFO
    else if target.indirection == 0 && target.item != Object then BOGUS_FULLINFO
    else if value == NULL_FULLINFO then target
    else if target == NULL_FULLINFO then value
    else if target == ObjectArray(obj, 0) then target
    else if value == ObjectArray(obj, 0) then
      if forAssignment && target.item == Object && target.indirection == 0 && target.extra.Class?
         && target.extra.cls.isInterface
      then target else value
    else if value.indirection > 0 || target.indirection > 0 then
      var v := if value.item == Object then value else ObjectArray(obj, value.indirection - 1);
      var t := if target.item == Object then target else ObjectArray(obj, target.indirection - 1);
      if v.indirection == t.indirection then
        var base := Merge(obj, v.(indirection := 0), t.(indirection := 0), forAssignment);
        if base == BOGUS_FULLINFO then base else FullInfo(Object, v.indirection, base.extra)
      else
        ObjectArray(obj, if v.indirection < t.indirection then v.indirection else t.indirection)
    else MergeClasses(obj, value, target, forAssignment)
  }

  function MergeClasses(obj: ClassClass, value: FullInfo, target: FullInfo, forAssignment: bool): FullInfo {
    if !target.extra.Class? || !value.extra.Class? then BOGUS_FULLINFO
    else if target.extra.cls.isInterface then if forAssignment then target else ObjectArray(obj, 0)
    else if value.extra.cls.isInterface then ObjectArray(obj, 0)
    else if forAssignment then
      if IsAncestor(target.extra.cls, value.extra.cls) then target else ObjectArray(obj, 0)
    else FullInfo(Object, 0, Class(Join(value.extra.cls, target.extra.cls)))
  }

  predicate AssignableTo(obj: ClassClass, from: FullInfo, to: FullInfo) {
    Merge(obj, from, to, true) == to
  }

  // ---------- well-formed types ----------

  /** The classes known to the verifier: at most `depth` links below `obj`, with interfaces
      directly below it and nothing below them. */
  predicate KnownClass(obj: ClassClass, depth: nat, c: ClassClass) {
    && Root(c) == obj && Depth(c) <= depth
    && (c.isInterface ==> c.super == Super(obj))
    && (c.super.Super? ==> !c.super.cls.isInterface && KnownClass(obj, depth, c.super.cls))
  }

  predicate KnownObject(obj: ClassClass) {
    obj.super.NoSuperclass? && !obj.isInterface
  }

  predicate Primitive(item: Item) {
    item.Integer? || item.Float? || item.Double? || item.Long? || item.Boolean? || item.Byte? || item.Short?
      || item.Char?
  }

  predicate Reference(x: FullInfo) {
    x.indirection > 0 || x.item == Object
  }

  predicate Known(obj: ClassClass, depth: nat, x: FullInfo) {
    && x.indirection <= MAX_ARRAY_DIMENSIONS
    && (x.item == Bogus ==> x == BOGUS_FULLINFO)
    && (x.item == Object ==> x == NULL_FULLINFO || (x.extra.Class? && KnownClass(obj, depth, x.extra.cls)))
    && (x.item != Object && x.indirection > 0 ==> Primitive(x.item) && x.extra == NoExtra)
  }

  // ---------- the order ----------

  /** How many dimensions remain if the elements are taken as objects. */
  function ObjectDims(x: FullInfo): nat {
    if x.item == Object || x.indirection == 0 then x.indirection else x.indirection - 1
  }

  /** `x` is at most `y`: a subtype, or `y` is `Bogus`. */
  predicate Leq(obj: ClassClass, x: FullInfo, y: FullInfo) {
    || x == y
    || y == BOGUS_FULLINFO
    || (x == NULL_FULLINFO && Reference(y))
    || (Reference(x) && x != NULL_FULLINFO && y.item == Object && y.extra.Class? &&
        if x.item == Object && x.extra.Class? && x.indirection == y.indirection
        then IsAncestor(y.extra.cls, x.extra.cls)
        else y.extra.cls == obj && y.indirection <= ObjectDims(x))
  }

  lemma LeqTransitive(obj: ClassClass, depth: nat, x: FullInfo, y: FullInfo, z: FullInfo)
    requires KnownObject(obj) && Known(obj, depth, x) && Known(obj, depth, y) && Known(obj, depth, z)
    requires Leq(obj, x, y) && Leq(obj, y, z)
    ensures Leq(obj, x, z)
  {
    hide KnownClass, Root;
    if x.extra.Class? && y.extra.Class? && z.extra.Class? {
      AncestorOrRoot(obj, x.extra.cls, y.extra.cls, z.extra.cls);
    }
  }

  lemma AncestorOrRoot(obj: ClassClass, x: ClassClass, y: ClassClass, z: ClassClass)
    requires KnownObject(obj)
    ensures IsAncestor(y, x) && IsAncestor(z, y) ==> IsAncestor(z, x)
    ensures IsAncestor(z, obj) ==> z == obj
  {
    if IsAncestor(y, x) && IsAncestor(z, y) {
      AncestorTransitive(z, y, x);
    }
  }

  lemma LeqAntisymmetric(obj: ClassClass, depth: nat, x: FullInfo, y: FullInfo)
    requires KnownObject(obj) && Known(obj, depth, x) && Known(obj, depth, y)
    requires Leq(obj, x, y) && Leq(obj, y, x)
    ensures x == y
  {
    hide KnownClass, Root;
    if x.extra.Class? && y.extra.Class? {
      if IsAncestor(x.extra.cls, y.extra.cls) && IsAncestor(y.extra.cls, x.extra.cls) {
        AncestorAntisymmetric(x.extra.cls, y.extra.cls);
      }
      AncestorOrRoot(obj, x.extra.cls, y.extra.cls, x.extra.cls);
      AncestorOrRoot(obj, x.extra.cls, y.extra.cls, y.extra.cls);
    }
  }

  // ---------- the merge in normal form ----------

  /** The class of the elements, if they are taken as objects. */
  function ElementClass(obj: ClassClass, x: FullInfo): ClassClass {
    if x.item == Object && x.extra.Class? then x.extra.cls else obj
  }

  lemma InterfaceJoin(obj: ClassClass, depth: nat, i: ClassClass, c: ClassClass)
    requires KnownObject(obj) && KnownClass(obj, depth, i) && KnownClass(obj, depth, c) && i.isInterface && i != c
    ensures Join(i, c) == obj && Join(c, i) == obj
  {
    if IsAncestor(i, c) {
      NothingBelowInterface(obj, depth, i, c);
    }
    RootIsAncestor(c);
    JoinSymmetric(i, c);
  }

  lemma {:induction false} NothingBelowInterface(obj: ClassClass, depth: nat, i: ClassClass, c: ClassClass)
    requires KnownClass(obj, depth, c) && i.isInterface && IsAncestor(i, c)
    ensures i == c
  {
    if i != c {
      NothingBelowInterface(obj, depth, i, c.super.cls);
    }
  }

  lemma ObjectJoin(obj: ClassClass, c: ClassClass)
    requires KnownObject(obj) && Root(c) == obj
    ensures IsAncestor(obj, c) && Join(obj, c) == obj && Join(c, obj) == obj
  {
    RootIsAncestor(c);
    JoinSymmetric(obj, c);
  }

  /** Merging two classes gives their nearest common superclass, with interfaces as subclasses of Object. */
  lemma MergeOfClasses(obj: ClassClass, depth: nat, v: ClassClass, t: ClassClass)
    requires KnownObject(obj) && KnownClass(obj, depth, v) && KnownClass(obj, depth, t)
    ensures Merge(obj, FullInfo(Object, 0, Class(v)), FullInfo(Object, 0, Class(t)), false)
         == FullInfo(Object, 0, Class(Join(v, t)))
  {
    hide Join, IsAncestor;
    ObjectJoin(obj, v);
    ObjectJoin(obj, t);
    if v == t {
      JoinSelf(v);
    } else if t.isInterface {
      InterfaceJoin(obj, depth, t, v);
    } else if v.isInterface {
      InterfaceJoin(obj, depth, v, t);
    }
  }

  lemma JoinSelf(c: ClassClass)
    ensures Join(c, c) == c
  {}

  /** Merging two different references, neither of them null. */
  lemma MergeOfReferences(obj: ClassClass, depth: nat, v: FullInfo, t: FullInfo)
    requires KnownObject(obj) && Known(obj, depth, v) && Known(obj, depth, t) && v != t
    requires Reference(v) && Reference(t) && v != NULL_FULLINFO && t != NULL_FULLINFO
    ensures var dv, dt := ObjectDims(v), ObjectDims(t);
            Merge(obj, v, t, false) ==
            if dv == dt then FullInfo(Object, dv, Class(Join(ElementClass(obj, v), ElementClass(obj, t))))
            else ObjectArray(obj, if dv < dt then dv else dt)
  {
    hide Join, IsAncestor, MergeClasses;
    KnownElement(obj, depth, v);
    KnownElement(obj, depth, t);
    hide KnownClass, Root;
    var cv, ct := ElementClass(obj, v), ElementClass(obj, t);
    MergeOfClasses(obj, depth, cv, ct);
    ObjectJoin(obj, cv);
    ObjectJoin(obj, ct);
  }

  lemma KnownElement(obj: ClassClass, depth: nat, x: FullInfo)
    requires KnownObject(obj) && Known(obj, depth, x)
    ensures KnownClass(obj, depth, ElementClass(obj, x)) && Root(ElementClass(obj, x)) == obj
  {}

  // ---------- the merge is the least upper bound ----------

  lemma {:induction false} KnownUp(obj: ClassClass, depth: nat, a: ClassClass, c: ClassClass)
    requires KnownClass(obj, depth, c) && IsAncestor(a, c)
    ensures KnownClass(obj, depth, a)
  {
    if a != c {
      KnownUp(obj, depth, a, c.super.cls);
    }
  }

  lemma MergeKnown(obj: ClassClass, depth: nat, v: FullInfo, t: FullInfo)
    requires KnownObject(obj) && Known(obj, depth, v) && Known(obj, depth, t)
    ensures Known(obj, depth, Merge(obj, v, t, false))
  {
    if v != t && Reference(v) && Reference(t) && v != NULL_FULLINFO && t != NULL_FULLINFO {
      MergeOfReferences(obj, depth, v, t);
      KnownElement(obj, depth, v);
      KnownElement(obj, depth, t);
      var cv, ct := ElementClass(obj, v), ElementClass(obj, t);
      JoinIsLeast(cv, ct, obj);
      KnownUp(obj, depth, Join(cv, ct), cv);
      hide Merge, Join, IsAncestor;
    } else {
      hide MergeClasses;
    }
  }

  lemma MergeIsUpper(obj: ClassClass, depth: nat, v: FullInfo, t: FullInfo)
    requires KnownObject(obj) && Known(obj, depth, v) && Known(obj, depth, t)
    ensures Leq(obj, v, Merge(obj, v, t, false)) && Leq(obj, t, Merge(obj, v, t, false))
  {
    if v != t && Reference(v) && Reference(t) && v != NULL_FULLINFO && t != NULL_FULLINFO {
      MergeOfReferences(obj, depth, v, t);
      KnownElement(obj, depth, v);
      KnownElement(obj, depth, t);
      var cv, ct := ElementClass(obj, v), ElementClass(obj, t);
      JoinIsLeast(cv, ct, obj);
      ObjectJoin(obj, cv);
      ObjectJoin(obj, ct);
      hide Merge, Join, IsAncestor, KnownClass, Root;
    } else {
      hide MergeClasses;
    }
  }

  lemma MergeIsLeast(obj: ClassClass, depth: nat, v: FullInfo, t: FullInfo, u: FullInfo)
    requires KnownObject(obj) && Known(obj, depth, v) && Known(obj, depth, t) && Known(obj, depth, u)
    requires Leq(obj, v, u) && Leq(obj, t, u)
    ensures Leq(obj, Merge(obj, v, t, false), u)
  {
    if v != t && Reference(v) && Reference(t) && v != NULL_FULLINFO && t != NULL_FULLINFO {
      MergeOfReferences(obj, depth, v, t);
      KnownElement(obj, depth, v);
      KnownElement(obj, depth, t);
      var cv, ct := ElementClass(obj, v), ElementClass(obj, t);
      JoinIsLeast(cv, ct, if u.extra.Class? then u.extra.cls else obj);
      ObjectJoin(obj, cv);
      ObjectJoin(obj, ct);
      ObjectJoin(obj, Join(cv, ct)) by { AncestorDepth(Join(cv, ct), cv); }
      hide Merge, Join, IsAncestor, KnownClass, Root;
    } else {
      hide MergeClasses;
    }
  }

  // ---------- what follows for merges ----------

  /** Merging is commutative, idempotent and associative. */
  lemma MergeLaws(obj: ClassClass, depth: nat, x: FullInfo, y: FullInfo, z: FullInfo)
    requires KnownObject(obj) && Known(obj, depth, x) && Known(obj, depth, y) && Known(obj, depth, z)
    ensures Merge(obj, x, x, false) == x
    ensures Merge(obj, x, y, false) == Merge(obj, y, x, false)
    ensures Merge(obj, Merge(obj, x, y, false), z, false) == Merge(obj, x, Merge(obj, y, z, false), false)
  {
    hide Known, KnownObject, Leq;
    assert Merge(obj, x, x, false) == x;
    hide Merge;
    LeastIsUnique(obj, depth, x, y, Merge(obj, y, x, false)) by {
      MergeKnown(obj, depth, y, x);
      MergeIsUpper(obj, depth, y, x);
      forall u | Known(obj, depth, u) && Leq(obj, x, u) && Leq(obj, y, u)
        ensures Leq(obj, Merge(obj, y, x, false), u)
      {
        MergeIsLeast(obj, depth, y, x, u);
      }
    }
    MergeAssociative(obj, depth, x, y, z);
  }

  /** The least upper bound of two types is their merge. */
  lemma LeastIsUnique(obj: ClassClass, depth: nat, x: FullInfo, y: FullInfo, m: FullInfo)
    requires KnownObject(obj) && Known(obj, depth, x) && Known(obj, depth, y) && Known(obj, depth, m)
    requires Leq(obj, x, m) && Leq(obj, y, m)
    requires forall u :: Known(obj, depth, u) && Leq(obj, x, u) && Leq(obj, y, u) ==> Leq(obj, m, u)
    ensures m == Merge(obj, x, y, false)
  {
    hide Known, KnownObject, Leq, Merge;
    MergeKnown(obj, depth, x, y);
    MergeIsUpper(obj, depth, x, y);
    MergeIsLeast(obj, depth, x, y, m);
    LeqAntisymmetric(obj, depth, m, Merge(obj, x, y, false));
  }

  lemma MergeAssociative(obj: ClassClass, depth: nat, x: FullInfo, y: FullInfo, z: FullInfo)
    requires KnownObject(obj) && Known(obj, depth, x) && Known(obj, depth, y) && Known(obj, depth, z)
    ensures Merge(obj, Merge(obj, x, y, false), z, false) == Merge(obj, x, Merge(obj, y, z, false), false)
  {
    hide Known, KnownObject, Leq, Merge;
    var xy, yz := Merge(obj, x, y, false), Merge(obj, y, z, false);
    MergeKnown(obj, depth, x, y);
    MergeKnown(obj, depth, y, z);
    MergeIsUpper(obj, depth, x, y);
    MergeIsUpper(obj, depth, y, z);
    var m := Merge(obj, xy, z, false);
    MergeKnown(obj, depth, xy, z);
    MergeIsUpper(obj, depth, xy, z);
    LeqTransitive(obj, depth, x, xy, m);
    LeqTransitive(obj, depth, y, xy, m);
    MergeIsLeast(obj, depth, y, z, m);
    forall u | Known(obj, depth, u) && Leq(obj, x, u) && Leq(obj, yz, u)
      ensures Leq(obj, m, u)
    {
      LeqTransitive(obj, depth, y, yz, u);
      LeqTransitive(obj, depth, z, yz, u);
      MergeIsLeast(obj, depth, x, y, u);
      MergeIsLeast(obj, depth, xy, z, u);
    }
    LeastIsUnique(obj, depth, x, yz, m);
  }

  // ---------- assignability ----------

  /** An interface type, possibly of an array. */
  predicate InterfaceType(x: FullInfo) {
    x.item == Object && x.extra.Class? && x.extra.cls.isInterface
  }

  /** Assignability is the order, except that any reference of the right dimension may be assigned
      to an interface type. */
  lemma AssignableMeansLeq(obj: ClassClass, depth: nat, from: FullInfo, to: FullInfo)
    requires KnownObject(obj) && Known(obj, depth, from) && Known(obj, depth, to)
    ensures AssignableTo(obj, from, to) <==>
            Leq(obj, from, to)
            || (InterfaceType(to) && Reference(from) && ObjectDims(from) == to.indirection)
  {
    if from != to && Reference(from) && Reference(to) && from != NULL_FULLINFO && to != NULL_FULLINFO {
      AssignableReferences(obj, depth, from, to);
    } else {
      hide MergeClasses;
    }
  }

  lemma AssignableClasses(obj: ClassClass, depth: nat, v: ClassClass, t: ClassClass)
    requires KnownObject(obj) && KnownClass(obj, depth, v) && KnownClass(obj, depth, t)
    ensures Merge(obj, FullInfo(Object, 0, Class(v)), FullInfo(Object, 0, Class(t)), true)
         == FullInfo(Object, 0, Class(if IsAncestor(t, v) || t.isInterface then t else obj))
  {
    ObjectJoin(obj, v);
    hide Root, Join;
    if v.isInterface {
      InterfaceAncestors(obj, depth, v, t);
    }
  }

  lemma AssignableReferences(obj: ClassClass, depth: nat, from: FullInfo, to: FullInfo)
    requires KnownObject(obj) && Known(obj, depth, from) && Known(obj, depth, to) && from != to
    requires Reference(from) && Reference(to) && from != NULL_FULLINFO && to != NULL_FULLINFO
    ensures AssignableTo(obj, from, to) <==>
            Leq(obj, from, to) || (InterfaceType(to) && ObjectDims(from) == to.indirection)
  {
    hide Join, MergeClasses;
    KnownElement(obj, depth, from);
    KnownElement(obj, depth, to);
    var cf, ct := ElementClass(obj, from), ElementClass(obj, to);
    AssignableClasses(obj, depth, cf, ct);
    ObjectJoin(obj, cf);
    ObjectJoin(obj, ct);
    if IsAncestor(ct, obj) {
      AncestorDepth(ct, obj);
    }
    hide KnownClass, Root, IsAncestor;
  }

  /** What may be assigned to a type may be assigned to every type above it. */
  lemma AssignableUp(obj: ClassClass, depth: nat, from: FullInfo, to: FullInfo, up: FullInfo)
    requires KnownObject(obj) && Known(obj, depth, from) && Known(obj, depth, to) && Known(obj, depth, up)
    requires AssignableTo(obj, from, to) && Leq(obj, to, up)
    ensures AssignableTo(obj, from, up)
  {
    hide AssignableTo;
    AssignableMeansLeq(obj, depth, from, to);
    AssignableMeansLeq(obj, depth, from, up);
    if Leq(obj, from, to) {
      LeqTransitive(obj, depth, from, to, up);
    } else {
      AboveInterface(obj, depth, to, up);
      KnownElement(obj, depth, from);
      ObjectJoin(obj, ElementClass(obj, from));
    }
  }

  lemma AboveInterface(obj: ClassClass, depth: nat, to: FullInfo, up: FullInfo)
    requires KnownObject(obj) && Known(obj, depth, to) && Known(obj, depth, up)
    requires InterfaceType(to) && Leq(obj, to, up)
    ensures up == to || up == BOGUS_FULLINFO
         || (up.item == Object && up.extra == Class(obj) && up.indirection <= to.indirection)
  {
    hide KnownClass, Root;
    if up.extra.Class? {
      InterfaceAncestors(obj, depth, to.extra.cls, up.extra.cls);
    }
  }

  lemma InterfaceAncestors(obj: ClassClass, depth: nat, i: ClassClass, a: ClassClass)
    requires KnownObject(obj) && KnownClass(obj, depth, i) && i.isInterface
    ensures IsAncestor(a, i) ==> a == i || a == obj
  {
    if a != i && IsAncestor(a, i) {
      assert IsAncestor(a, obj);
    }
  }

  /** Merging in a value makes it assignable. */
  lemma MergedIsAssignable(obj: ClassClass, depth: nat, from: FullInfo, to: FullInfo)
    requires KnownObject(obj) && Known(obj, depth, from) && Known(obj, depth, to)
    ensures AssignableTo(obj, from, Merge(obj, to, from, false)) && AssignableTo(obj, from, Merge(obj, from, to, false))
  {
    hide AssignableTo, Merge, Leq, Known, KnownObject;
    MergeKnown(obj, depth, to, from);
    MergeKnown(obj, depth, from, to);
    MergeIsUpper(obj, depth, to, from);
    MergeIsUpper(obj, depth, from, to);
    AssignableMeansLeq(obj, depth, from, Merge(obj, to, from, false));
    AssignableMeansLeq(obj, depth, from, Merge(obj, from, to, false));
  }

  // ---------- the program's merge, with its walks over superclass links ----------

  /** Looks for `target` among the superclasses of `value`, all but the root. */
  method IsProperSuperclass(value: ClassClass, target: ClassClass) returns (found: bool)
    ensures found <==> IsAncestor(target, value) && target.super.Super?
  {
    var cb_super_value := value;
    while cb_super_value.super.Super?
      invariant IsAncestor(target, value) && target.super.Super? <==>
                IsAncestor(target, cb_super_value) && target.super.Super?
      decreases Depth(cb_super_value)
    {
      if cb_super_value == target {
        return true;
      }
      cb_super_value := cb_super_value.super.cls;
    }
    return false;
  }

  method MergeClassTypes(obj: ClassClass, value: FullInfo, target: FullInfo, forAssignment: bool) returns (r: FullInfo)
    requires value.item == Object && target.item == Object && value.indirection == target.indirection == 0
    requires value.extra.Class? && Root(value.extra.cls) == obj
    requires target.extra.Class? && Root(target.extra.cls) == obj
    ensures r == MergeClasses(obj, value, target, forAssignment)
  {
    hide IsAncestor, Join;
    var cb_target, cb_value := target.extra.cls, value.extra.cls;
    if cb_target.isInterface {
      return if forAssignment then target else ObjectArray(obj, 0);
    }
    if cb_value.isInterface {
      return ObjectArray(obj, 0);
    }
    if forAssignment {
      var found := IsProperSuperclass(cb_value, cb_target);
      return if found then target else ObjectArray(obj, 0);
    }
    var common := NearestCommonSuperclass(cb_value, cb_target);
    return FullInfo(Object, 0, Class(common));
  }

  method MergeFullinfoTypes(obj: ClassClass, ghost depth: nat, value: FullInfo, target: FullInfo, forAssignment: bool)
      returns (r: FullInfo)
    requires KnownObject(obj) && Known(obj, depth, value) && Known(obj, depth, target)
    ensures r == Merge(obj, value, target, forAssignment)
    decreases value.indirection + target.indirection
  {
    hide MergeClasses, IsAncestor, Join;
    KnownElement(obj, depth, value);
    KnownElement(obj, depth, target);
    if value == target {
      return value;
    }
    if (value.indirection == 0 && value.item != Object) || (target.indirection == 0 && target.item != Object) {
      return BOGUS_FULLINFO;
    }
    if value == NULL_FULLINFO {
      return target;
    } else if target == NULL_FULLINFO {
      return value;
    }
    if target == ObjectArray(obj, 0) {
      return target;
    } else if value == ObjectArray(obj, 0) {
      if forAssignment && target.item == Object && target.indirection == 0 && target.extra.cls.isInterface {
        return target;
      }
      return value;
    }
    if value.indirection > 0 || target.indirection > 0 {
      var v, t := value, target;
      if v.item != Object {
        v := ObjectArray(obj, v.indirection - 1);
      }
      if t.item != Object {
        t := ObjectArray(obj, t.indirection - 1);
      }
      if v.indirection == t.indirection {
        r := MergeFullinfoTypes(obj, depth, v.(indirection := 0), t.(indirection := 0), forAssignment);
        if r != BOGUS_FULLINFO {
          r := FullInfo(Object, v.indirection, r.extra);
        }
      } else {
        r := ObjectArray(obj, if v.indirection < t.indirection then v.indirection else t.indirection);
      }
    } else {
      r := MergeClassTypes(obj, value, target, forAssignment);
    }
  }
}
