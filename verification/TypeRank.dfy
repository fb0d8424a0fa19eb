/** The types have finite height: a rank that drops whenever a type rises in the order. */
module TypeRank {
  import opened ClassTree
  import opened TypeMerge

  function Rows(depth: nat, d: nat): nat {
    if d == 0 then 0 else depth + 2 + Rows(depth, d - 1)
  }

  function Rank(depth: nat, x: FullInfo): nat {
    if x == BOGUS_FULLINFO then 0
    else if !Reference(x) then 1
    else if x.item == Object then
      if x.extra.Class? then 1 + Rows(depth, x.indirection) + Depth(x.extra.cls)
      else 1 + Rows(depth, MAX_ARRAY_DIMENSIONS + 1)
    else Rows(depth, x.indirection)
  }

  lemma {:induction false} RowsMonotone(depth: nat, d: nat, e: nat)
    requires d <= e
    ensures Rows(depth, d) <= Rows(depth, e)
    ensures d < e ==> Rows(depth, d) + depth + 2 <= Rows(depth, e)
    decreases e
  {
    if d < e {
      RowsMonotone(depth, d, e - 1);
    }
  }

  lemma RankDecreases(obj: ClassClass, depth: nat, x: FullInfo, y: FullInfo)
    requires KnownObject(obj) && Known(obj, depth, x) && Known(obj, depth, y)
    requires Leq(obj, x, y) && x != y
    ensures Rank(depth, y) < Rank(depth, x)
  {
    hide IsAncestor;
    if x.item == Object && x.extra.Class? {
      assert Depth(x.extra.cls) <= depth;
    }
    if y.item == Object && y.extra.Class? {
      assert Depth(y.extra.cls) <= depth;
      if x.item == Object && x.extra.Class? && IsAncestor(y.extra.cls, x.extra.cls) {
        AncestorDepth(y.extra.cls, x.extra.cls);
      }
    }
    hide KnownClass, Root;
    RankOfNull(depth, y);
    if Reference(x) && y.item == Object && y.extra.Class? {
      if y.indirection <= x.indirection {
        RowsMonotone(depth, y.indirection, x.indirection);
      }
      if y.indirection <= ObjectDims(x) {
        RowsMonotone(depth, y.indirection, ObjectDims(x));
        RowsMonotone(depth, ObjectDims(x), x.indirection);
      }
    }
  }

  lemma RankOfNull(depth: nat, y: FullInfo)
    requires y.indirection <= MAX_ARRAY_DIMENSIONS
    ensures Rows(depth, y.indirection) + depth + 2 <= Rows(depth, MAX_ARRAY_DIMENSIONS + 1)
  {
    hide Rows;
    RowsMonotone(depth, y.indirection, MAX_ARRAY_DIMENSIONS + 1);
  }
}
