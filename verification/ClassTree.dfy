/** Classes and their superclass links, which form a finite tree, and the nearest common
    superclass of two of them. */
module ClassTree {

  datatype Superclass = NoSuperclass | Super(cls: ClassClass)
  datatype ClassClass = ClassClass(name: string, isInterface: bool, super: Superclass)

  predicate IsAncestor(a: ClassClass, c: ClassClass) {
    a == c || (c.super.Super? && IsAncestor(a, c.super.cls))
  }

  function Depth(c: ClassClass): nat {
    if c.super.Super? then 1 + Depth(c.super.cls) else 0
  }

  function Root(c: ClassClass): (r: ClassClass)
    ensures r.super.NoSuperclass?
  {
    if c.super.Super? then Root(c.super.cls) else c
  }

  /** The ancestor of `c` that is `n` links up. */
  function Up(c: ClassClass, n: nat): ClassClass
    requires n <= Depth(c)
  {
    if n == 0 then c else Up(c.super.cls, n - 1)
  }

  /** The nearest superclass of `a` that is also one of `b`. */
  function Join(a: ClassClass, b: ClassClass): ClassClass {
    if IsAncestor(a, b) then a else if a.super.Super? then Join(a.super.cls, b) else a
  }

  // ---------- ancestry is a tree order ----------

  lemma {:induction false} AncestorTransitive(a: ClassClass, b: ClassClass, c: ClassClass)
    requires IsAncestor(a, b) && IsAncestor(b, c)
    ensures IsAncestor(a, c)
  {
    if b != c {
      AncestorTransitive(a, b, c.super.cls);
    }
  }

  lemma {:induction false} AncestorDepth(a: ClassClass, c: ClassClass)
    requires IsAncestor(a, c)
    ensures Depth(a) <= Depth(c) && (a != c ==> Depth(a) < Depth(c)) && Root(a) == Root(c)
  {
    if a != c {
      AncestorDepth(a, c.super.cls);
    }
  }

  lemma AncestorAntisymmetric(a: ClassClass, b: ClassClass)
    requires IsAncestor(a, b) && IsAncestor(b, a)
    ensures a == b
  {
    AncestorDepth(a, b);
    AncestorDepth(b, a);
  }

  lemma {:induction false} RootIsAncestor(c: ClassClass)
    ensures IsAncestor(Root(c), c)
  {
    if c.super.Super? {
      RootIsAncestor(c.super.cls);
    }
  }

  /** The ancestors of one class are ordered by ancestry. */
  lemma {:induction false} AncestorsLinear(a: ClassClass, b: ClassClass, c: ClassClass)
    requires IsAncestor(a, c) && IsAncestor(b, c) && Depth(a) <= Depth(b)
    ensures IsAncestor(a, b)
  {
    if b == c {
    } else if a == c {
      AncestorDepth(b, c);
    } else {
      AncestorsLinear(a, b, c.super.cls);
    }
  }

  lemma {:induction false} UpIsAncestor(c: ClassClass, n: nat)
    requires n <= Depth(c)
    ensures IsAncestor(Up(c, n), c) && Depth(Up(c, n)) == Depth(c) - n
  {
    if n > 0 {
      UpIsAncestor(c.super.cls, n - 1);
    }
  }

  lemma {:induction false} UpOne(c: ClassClass, n: nat)
    requires n < Depth(c)
    ensures Up(c, n).super.Super? && Up(c, n).super.cls == Up(c, n + 1)
  {
    if n > 0 {
      UpOne(c.super.cls, n - 1);
    }
  }

  // ---------- the join is the least common ancestor ----------

  lemma {:induction false} JoinIsLeast(a: ClassClass, b: ClassClass, u: ClassClass)
    requires Root(a) == Root(b)
    ensures IsAncestor(Join(a, b), a) && IsAncestor(Join(a, b), b)
    ensures IsAncestor(u, a) && IsAncestor(u, b) ==> IsAncestor(u, Join(a, b))
  {
    if IsAncestor(a, b) {
    } else if a.super.Super? {
      JoinIsLeast(a.super.cls, b, u);
      AncestorTransitive(Join(a, b), a.super.cls, a);
    } else {
      RootIsAncestor(b);
    }
  }

  /** A common ancestor above which nothing else is needed is the join. */
  lemma JoinUnique(a: ClassClass, b: ClassClass, m: ClassClass)
    requires Root(a) == Root(b) && IsAncestor(m, a) && IsAncestor(m, b)
    requires forall u :: IsAncestor(u, a) && IsAncestor(u, b) ==> IsAncestor(u, m)
    ensures m == Join(a, b)
  {
    JoinIsLeast(a, b, m);
    AncestorAntisymmetric(m, Join(a, b));
  }

  /** At equal depths, classes that differ have the join of their superclasses. */
  lemma JoinOfSupers(a: ClassClass, b: ClassClass)
    requires Root(a) == Root(b) && Depth(a) == Depth(b) && a != b
    ensures a.super.Super? && b.super.Super? && Join(a, b) == Join(a.super.cls, b.super.cls)
  {
    hide Join;
    var p, q := a.super, b.super;
    assert p.Super? && q.Super?;
    var m := Join(p.cls, q.cls);
    JoinIsLeast(p.cls, q.cls, m);
    AncestorTransitive(m, p.cls, a);
    AncestorTransitive(m, q.cls, b);
    forall u | IsAncestor(u, a) && IsAncestor(u, b)
      ensures IsAncestor(u, m)
    {
      if u == a {
        AncestorDepth(a, b);
      } else if u == b {
        AncestorDepth(b, a);
      }
      JoinIsLeast(p.cls, q.cls, u);
    }
    JoinUnique(a, b, m);
  }

  /** Moving the deeper class up to the depth of the other keeps the join. */
  lemma JoinOfSuper(a: ClassClass, b: ClassClass)
    requires Root(a) == Root(b) && Depth(a) > Depth(b)
    ensures a.super.Super? && Join(a, b) == Join(a.super.cls, b)
  {
    if IsAncestor(a, b) {
      AncestorDepth(a, b);
    }
  }

  lemma JoinSymmetric(a: ClassClass, b: ClassClass)
    requires Root(a) == Root(b)
    ensures Join(a, b) == Join(b, a)
  {
    var m := Join(b, a);
    JoinIsLeast(b, a, m);
    forall u | IsAncestor(u, a) && IsAncestor(u, b)
      ensures IsAncestor(u, m)
    {
      JoinIsLeast(b, a, u);
    }
    JoinUnique(a, b, m);
  }

  lemma JoinOfAncestor(a: ClassClass, c: ClassClass)
    requires IsAncestor(a, c)
    ensures Join(a, c) == a && Join(c, a) == a
  {
    AncestorDepth(a, c);
    JoinSymmetric(a, c);
  }

  // ---------- the program's walk ----------

  /** Walks both classes toward the root to learn which is deeper, brings the deeper to the depth of
      the other, and then walks both up until they meet. */
  method NearestCommonSuperclass(value: ClassClass, target: ClassClass) returns (r: ClassClass)
    requires Root(value) == Root(target)
    ensures r == Join(value, target)
  {
    var cb_value, cb_target := value, target;
    var cb_super_value, cb_super_target := cb_value, cb_target;
    ghost var n := 0;
    while cb_super_value.super.Super? && cb_super_target.super.Super?
      invariant n <= Depth(value) && n <= Depth(target)
      invariant cb_super_value == Up(value, n) && cb_super_target == Up(target, n)
      decreases Depth(value) - n
    {
      UpIsAncestor(value, n);
      UpIsAncestor(target, n);
      if cb_super_value == cb_target {
        JoinOfAncestor(cb_target, cb_value);
        return target;
      }
      if cb_super_target == cb_value {
        JoinOfAncestor(cb_value, cb_target);
        return value;
      }
      UpOne(value, n);
      UpOne(target, n);
      cb_super_value := cb_super_value.super.cls;
      cb_super_target := cb_super_target.super.cls;
      n := n + 1;
    }
    UpIsAncestor(value, n);
    UpIsAncestor(target, n);
    while cb_super_value.super.Super?
      invariant Root(cb_value) == Root(cb_target) && Join(cb_value, cb_target) == Join(value, target)
      invariant Depth(cb_value) - Depth(cb_super_value) == Depth(cb_target) - Depth(cb_super_target)
      invariant Depth(cb_super_value) == 0 || Depth(cb_super_target) == 0
      decreases Depth(cb_super_value)
    {
      JoinOfSuper(cb_value, cb_target);
      cb_super_value := cb_super_value.super.cls;
      cb_value := cb_value.super.cls;
    }
    while cb_super_target.super.Super?
      invariant Root(cb_value) == Root(cb_target) && Join(cb_value, cb_target) == Join(value, target)
      invariant Depth(cb_target) - Depth(cb_super_target) == Depth(cb_value)
      decreases Depth(cb_super_target)
    {
      JoinSymmetric(cb_value, cb_target);
      JoinOfSuper(cb_target, cb_value);
      cb_super_target := cb_super_target.super.cls;
      cb_target := cb_target.super.cls;
      JoinSymmetric(cb_value, cb_target);
    }
    while cb_value != cb_target
      invariant Root(cb_value) == Root(cb_target) && Join(cb_value, cb_target) == Join(value, target)
      invariant Depth(cb_value) == Depth(cb_target)
      decreases Depth(cb_value)
    {
      JoinOfSupers(cb_value, cb_target);
      cb_value := cb_value.super.cls;
      cb_target := cb_target.super.cls;
    }
    r := cb_value;
  }
}
