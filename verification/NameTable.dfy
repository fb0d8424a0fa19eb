/** The compiler's name table: a search tree by name, and a list of its entries in insertion order. */
module NameTable {
  import opened Wrappers
  import opened SymbolFile

  // ---------- comparing names ----------

  /** The order of names, in which case does not count. */
  function Compare(a: Str, b: Str): int {
    if a == [] && b == [] then 0
    else if a == [] then -1
    else if b == [] then 1
    else if LowerChar(a[0]) != LowerChar(b[0]) then LowerChar(a[0]) - LowerChar(b[0])
    else Compare(a[1..], b[1..])
  }

  lemma {:induction false} CompareEqual(a: Str, b: Str)
    ensures Compare(a, b) == 0 <==> Lower(a) == Lower(b)
    decreases |a|
  {
    if a != [] && b != [] {
      CompareEqual(a[1..], b[1..]);
      LowerParts(a);
      LowerParts(b);
    }
  }

  /** Names compare equal exactly if, place by place, they have the same letters in any case. */
  lemma CompareLetters(a: Str, b: Str)
    ensures Compare(a, b) == 0 <==> |a| == |b| && forall i :: 0 <= i < |a| ==> SameLetter(a[i], b[i])
  {
    hide Lower, Compare, SameLetter;
    CompareEqual(a, b);
    LowerForgetsCase(a, b);
  }

  lemma LowerParts(a: Str)
    requires a != []
    ensures Lower(a) == [LowerChar(a[0])] + Lower(a[1..])
    ensures Lower(a)[0] == LowerChar(a[0]) && Lower(a)[1..] == Lower(a[1..])
  {}

  lemma {:induction false} CompareLower(a: Str, b: Str, c: Str)
    requires Lower(a) == Lower(b)
    ensures Compare(a, c) == Compare(b, c)
    decreases |a|
  {
    assert |Lower(a)| == |Lower(b)|;
    if a != [] && c != [] {
      LowerParts(a);
      LowerParts(b);
      CompareLower(a[1..], b[1..], c[1..]);
    }
  }

  // ---------- the tree as a value ----------

  /** The entries in insertion order; children are places in that order, -1 for none. */
  datatype Shape = Shape(names: seq<Str>, left: seq<int>, right: seq<int>)

  predicate ShapeOk(s: Shape) {
    && |s.names| == |s.left| == |s.right|
    && (forall i :: 0 <= i < |s.names| ==> s.left[i] == -1 || i < s.left[i] < |s.names|)
    && (forall i :: 0 <= i < |s.names| ==> s.right[i] == -1 || i < s.right[i] < |s.names|)
  }

  /** Where a search ends: at an entry, or at a missing child. */
  datatype Stop = Found(place: nat) | Missing(parent: nat, onLeft: bool)

  function Walk(s: Shape, i: nat, name: Str): (r: Stop)
    requires ShapeOk(s) && i < |s.names|
    ensures r.Found? ==> r.place < |s.names| && Compare(name, s.names[r.place]) == 0
    ensures r.Missing? ==> r.parent < |s.names| && (if r.onLeft then s.left else s.right)[r.parent] == -1
    decreases |s.names| - i
  {
    var c := Compare(name, s.names[i]);
    if c == 0 then Found(i)
    else if c < 0 then if s.left[i] < 0 then Missing(i, true) else Walk(s, s.left[i], name)
    else if s.right[i] < 0 then Missing(i, false) else Walk(s, s.right[i], name)
  }

  /** Every name is found at its own entry. */
  predicate Ordered(s: Shape)
    requires ShapeOk(s)
  {
    forall k :: 0 <= k < |s.names| ==> Walk(s, 0, s.names[k]) == Found(k)
  }

  function Grown(s: Shape, parent: nat, onLeft: bool, name: Str): Shape
    requires ShapeOk(s) && parent < |s.names|
  {
    var n := |s.names|;
    Shape(s.names + [name],
          (if onLeft then s.left[parent := n] else s.left) + [-1],
          (if onLeft then s.right else s.right[parent := n]) + [-1])
  }

  /** A new leaf changes only the searches that ended where it was added. */
  lemma {:induction false} WalkGrown(s: Shape, parent: nat, onLeft: bool, name: Str, i: nat, key: Str)
    requires ShapeOk(s) && parent < |s.names| && i < |s.names| && (if onLeft then s.left else s.right)[parent] == -1
    ensures ShapeOk(Grown(s, parent, onLeft, name))
    ensures Walk(Grown(s, parent, onLeft, name), i, key) ==
            if Walk(s, i, key) != Missing(parent, onLeft) then Walk(s, i, key)
            else if Compare(key, name) == 0 then Found(|s.names|)
            else Missing(|s.names|, Compare(key, name) < 0)
    decreases |s.names| - i
  {
    hide Compare;
    var c := Compare(key, s.names[i]);
    if c < 0 && s.left[i] >= 0 {
      WalkGrown(s, parent, onLeft, name, s.left[i], key);
    } else if c > 0 && s.right[i] >= 0 {
      WalkGrown(s, parent, onLeft, name, s.right[i], key);
    }
  }

  lemma OrderedGrown(s: Shape, parent: nat, onLeft: bool, name: Str)
    requires ShapeOk(s) && s.names != [] && Ordered(s) && Walk(s, 0, name) == Missing(parent, onLeft)
    ensures ShapeOk(Grown(s, parent, onLeft, name)) && Ordered(Grown(s, parent, onLeft, name))
  {
    hide Walk, Compare;
    CompareEqual(name, name);
    forall k | 0 <= k <= |s.names|
      ensures ShapeOk(Grown(s, parent, onLeft, name))
      ensures Walk(Grown(s, parent, onLeft, name), 0, Grown(s, parent, onLeft, name).names[k]) == Found(k)
    {
      WalkGrown(s, parent, onLeft, name, 0, Grown(s, parent, onLeft, name).names[k]);
    }
  }

  lemma {:induction false} WalkLower(s: Shape, i: nat, a: Str, b: Str)
    requires ShapeOk(s) && i < |s.names| && Lower(a) == Lower(b)
    ensures Walk(s, i, a) == Walk(s, i, b)
    decreases |s.names| - i
  {
    hide Compare;
    CompareLower(a, b, s.names[i]);
    if s.left[i] >= 0 {
      WalkLower(s, s.left[i], a, b);
    }
    if s.right[i] >= 0 {
      WalkLower(s, s.right[i], a, b);
    }
  }

  /** The table as a map from names in lower case; the first insertion of a name counts. */
  ghost predicate Describes<D>(s: Shape, descriptors: seq<D>, table: map<Str, D>)
  {
    && ShapeOk(s) && |descriptors| == |s.names| && (s.names != [] ==> Ordered(s))
    && (forall k :: 0 <= k < |s.names| ==> Lower(s.names[k]) in table && table[Lower(s.names[k])] == descriptors[k])
    && (forall key :: key in table ==> exists k :: 0 <= k < |s.names| && Lower(s.names[k]) == key)
  }

  lemma DescribesShape<D>(s: Shape, descriptors: seq<D>, table: map<Str, D>)
    requires Describes(s, descriptors, table)
    ensures ShapeOk(s) && |s.names| == |s.left| == |s.right| == |descriptors|
    ensures forall i :: 0 <= i < |s.names| ==> s.left[i] < |s.names| && s.right[i] < |s.names|
  {}

  /** A search finds exactly the names in the map. */
  lemma WalkFinds<D>(s: Shape, descriptors: seq<D>, table: map<Str, D>, name: Str)
    requires Describes(s, descriptors, table) && s.names != []
    ensures var r := Walk(s, 0, name);
            if r.Found? then Lower(name) in table && table[Lower(name)] == descriptors[r.place]
              else Lower(name) !in table
  {
    hide Walk, Compare;
    var r := Walk(s, 0, name);
    if r.Found? {
      CompareEqual(name, s.names[r.place]);
    } else if Lower(name) in table {
      var k :| 0 <= k < |s.names| && Lower(s.names[k]) == Lower(name);
      WalkLower(s, 0, name, s.names[k]);
    }
  }

  lemma DescribesGrown<D>(s: Shape, descriptors: seq<D>, table: map<Str, D>, parent: nat, onLeft: bool, name: Str, d: D)
    requires Describes(s, descriptors, table) && s.names != [] && Walk(s, 0, name) == Missing(parent, onLeft)
    ensures Describes(Grown(s, parent, onLeft, name), descriptors + [d], table[Lower(name) := d])
  {
    hide Walk, Compare, Lower;
    OrderedGrown(s, parent, onLeft, name);
    WalkFinds(s, descriptors, table, name);
    hide Ordered;
    var g := Grown(s, parent, onLeft, name);
    var more := table[Lower(name) := d];
    forall key | key in more
      ensures exists k :: 0 <= k < |g.names| && Lower(g.names[k]) == key
    {
      if key == Lower(name) {
        assert Lower(g.names[|s.names|]) == key;
      } else {
        var k :| 0 <= k < |s.names| && Lower(s.names[k]) == key;
        assert Lower(g.names[k]) == key;
      }
    }
  }

  // ---------- the tree in place ----------

  class Entry<D> {
    var name: Option<Str>
    var descriptor: Option<D>
    var leftChild: Entry?<D>
    var rightChild: Entry?<D>
    var next: Entry?<D>

    constructor ()
      ensures name == None && descriptor == None && leftChild == null && rightChild == null && next == null
    {
      name, descriptor, leftChild, rightChild, next := None, None, null, null, null;
    }
  }

  function Ref<D>(nodes: seq<Entry<D>>, i: int): Entry?<D> {
    if 0 <= i < |nodes| then nodes[i] else null
  }

  class Table<D> {
    const root: Entry<D>
    /** The last entry of the list; the program keeps it in the root. */
    var last: Entry<D>
    ghost var nodes: seq<Entry<D>>
    ghost var shape: Shape
    ghost var descriptors: seq<D>
    ghost var table: map<Str, D>

    ghost predicate NodeOk(i: nat)
      requires i < |nodes| == |shape.names| == |descriptors| == |shape.left| == |shape.right|
      reads this, nodes
    {
      && nodes[i].name == Some(shape.names[i]) && nodes[i].descriptor == Some(descriptors[i])
      && nodes[i].leftChild == Ref(nodes, shape.left[i]) && nodes[i].rightChild == Ref(nodes, shape.right[i])
      && nodes[i].next == Ref(nodes, i + 1)
    }

    ghost predicate Valid()
      reads this, nodes
    {
      && Describes(shape, descriptors, table)
      && nodes != [] && root == nodes[0] && last == nodes[|nodes| - 1]
      && (forall i, j :: 0 <= i < j < |nodes| ==> nodes[i] != nodes[j])
      && (if shape.names == [] then
            |nodes| == 1 && root.name == None && root.leftChild == null && root.rightChild == null && root.next == null
          else
            |nodes| == |shape.names| && forall i :: 0 <= i < |nodes| ==> NodeOk(i))
    }

    constructor ()
      ensures Valid() && table == map[] && forall e :: e in nodes ==> fresh(e)
    {
      root := new Entry();
      last := root;
      nodes, shape, descriptors, table := [root], Shape([], [], []), [], map[];
    }

    /** Walks down from the root; ends where the name is, or where it would have to be. */
    method Search(name: Str) returns (item: Entry<D>, compare: int, ghost i: nat)
      requires Valid() && shape.names != []
      ensures i < |nodes| && item == nodes[i]
      ensures compare == 0 ==> Walk(shape, 0, name) == Found(i)
      ensures compare != 0 ==> Walk(shape, 0, name) == Missing(i, compare < 0)
    {
      hide Compare, Ordered;
      item, i := root, 0;
      while true
        invariant i < |nodes| && item == nodes[i] && Walk(shape, 0, name) == Walk(shape, i, name)
        decreases |nodes| - i
      {
        assert NodeOk(i);
        compare := Compare(name, item.name.value);
        if compare == 0 {
          return;
        }
        if compare < 0 {
          if item.leftChild == null {
            return;
          }
          item, i := item.leftChild, shape.left[i];
        } else {
          if item.rightChild == null {
            return;
          }
          item, i := item.rightChild, shape.right[i];
        }
      }
    }

    lemma RootEmpty()
      requires Valid()
      ensures root.name == None <==> shape.names == []
    {
      assert shape.names != [] ==> NodeOk(0);
    }

    /** An entry has this name, in any case of letters. */
    ghost predicate Listed(name: Str)
      reads this, nodes
    {
      exists e :: e in nodes && e.name.Some? && SameName(name, e.name.value)
    }

    /** The map has the names of the entries. */
    lemma ListedIff(name: Str)
      requires Valid()
      ensures Listed(name) <==> Lower(name) in table
    {
      hide Lower, SameName, Ordered, Walk;
      if shape.names != [] {
        forall k | 0 <= k < |nodes|
          ensures nodes[k].name == Some(shape.names[k])
          ensures Lower(name) == Lower(shape.names[k]) <==> SameName(name, shape.names[k])
        {
          assert NodeOk(k);
          LowerForgetsCase(name, shape.names[k]);
        }
        if Lower(name) in table {
          var k :| 0 <= k < |shape.names| && Lower(shape.names[k]) == Lower(name);
          assert nodes[k] in nodes;
        }
      }
    }

    /** The map has the descriptors of the entries. */
    lemma ListedDescriptor(name: Str)
      requires Valid()
      ensures forall e :: e in nodes && e.name.Some? && SameName(name, e.name.value) ==>
                Lower(name) in table && e.descriptor == Some(table[Lower(name)])
    {
      hide Lower, SameName, Ordered, Walk;
      if shape.names != [] {
        forall k | 0 <= k < |nodes|
          ensures nodes[k].name == Some(shape.names[k]) && nodes[k].descriptor == Some(descriptors[k])
          ensures Lower(name) == Lower(shape.names[k]) <==> SameName(name, shape.names[k])
        {
          assert NodeOk(k);
          LowerForgetsCase(name, shape.names[k]);
        }
      }
    }

    method Find(name: Str) returns (r: Option<D>)
      requires Valid()
      ensures r == if Lower(name) in table then Some(table[Lower(name)]) else None
      ensures forall e :: e in nodes && e.name.Some? && SameName(name, e.name.value) ==> r == e.descriptor != None
      ensures r != None ==> Listed(name)
    {
      hide Compare, Walk, Ordered, Lower, SameName;
      RootEmpty();
      ListedIff(name);
      ListedDescriptor(name);
      if root.name == None {
        return None;
      }
      var item, compare, i := Search(name);
      WalkFinds(shape, descriptors, table, name);
      if compare == 0 {
        assert NodeOk(i);
        return item.descriptor;
      }
      return None;
    }

    /** Adds a name, unless it is there already in any case of letters. */
    method Insert(name: Str, descriptor: D)
      requires Valid()
      modifies this, nodes
      ensures Valid() && table == if Lower(name) in old(table) then old(table)
              else old(table)[Lower(name) := descriptor]
      ensures Lower(name) in old(table) ==> nodes == old(nodes)
      ensures Lower(name) !in old(table) && old(table) != map[] ==>
                nodes[..|nodes| - 1] == old(nodes) && fresh(nodes[|nodes| - 1])
      ensures Lower(name) !in old(table) ==> nodes[|nodes| - 1].name == Some(name)
      ensures Lower(name) in old(table) <==> old(Listed(name))
      ensures forall e :: e in old(nodes) && old(e.name).Some? ==>
                e.name == old(e.name) && e.descriptor == old(e.descriptor)
    {
      hide Compare, Walk, Ordered, Lower, Listed;
      RootEmpty();
      ListedIff(name);
      if root.name == None {
        InsertFirst(name, descriptor);
        return;
      }
      var item, compare, i := Search(name);
      WalkFinds(shape, descriptors, table, name);
      if compare == 0 {
        return;
      }
      Append(name, descriptor, item, compare < 0, i);
    }

    /** Adds an entry where a search for its name ended. */
    method Append(name: Str, descriptor: D, item: Entry<D>, onLeft: bool, ghost i: nat)
      requires Valid() && shape.names != [] && i < |nodes| && item == nodes[i]
      requires Walk(shape, 0, name) == Missing(i, onLeft)
      modifies this, nodes
      ensures Valid() && table == old(table)[Lower(name) := descriptor]
      ensures |nodes| == |old(nodes)| + 1 && nodes[..|nodes| - 1] == old(nodes) && fresh(nodes[|nodes| - 1])
      ensures nodes[|nodes| - 1].name == Some(name)
      ensures forall e :: e in old(nodes) ==> e.name == old(e.name) && e.descriptor == old(e.descriptor)
    {
      hide Compare, Walk, Ordered, Lower;
      var newItem := new Entry<D>();
      newItem.name, newItem.descriptor := Some(name), Some(descriptor);
      DescribesGrown(shape, descriptors, table, i, onLeft, name, descriptor);
      Link(newItem, item, onLeft, i, name, descriptor);
    }

    method InsertFirst(name: Str, descriptor: D)
      requires Valid() && shape.names == []
      modifies this, root
      ensures Valid() && table == map[Lower(name) := descriptor] && nodes == old(nodes) && old(table) == map[]
      ensures root.name == Some(name)
    {
      root.name, root.descriptor := Some(name), Some(descriptor);
      shape, descriptors, table := Shape([name], [-1], [-1]), [descriptor], map[Lower(name) := descriptor];
      CompareEqual(name, name);
      assert NodeOk(0);
    }

    /** Appends an entry to the list and hangs it into the tree. */
    method Link(newItem: Entry<D>, item: Entry<D>, onLeft: bool, ghost i: nat, ghost name: Str, ghost descriptor: D)
      requires Valid() && shape.names != [] && i < |nodes| && item == nodes[i] && newItem !in nodes
      requires newItem.name == Some(name) && newItem.descriptor == Some(descriptor)
      requires newItem.leftChild == null && newItem.rightChild == null && newItem.next == null
      requires (if onLeft then shape.left else shape.right)[i] == -1
      requires Describes(Grown(shape, i, onLeft, name), descriptors + [descriptor], table[Lower(name) := descriptor])
      modifies this, last`next, item`leftChild, item`rightChild
      ensures Valid() && nodes == old(nodes) + [newItem] && table == old(table)[Lower(name) := descriptor]
    {
      hide Describes, Lower, ShapeOk;
      ghost var before := nodes;
      DescribesShape(shape, descriptors, table);
      last.next := newItem;
      last := newItem;
      if onLeft {
        item.leftChild := newItem;
      } else {
        item.rightChild := newItem;
      }
      nodes, descriptors, table := nodes + [newItem], descriptors + [descriptor], table[Lower(name) := descriptor];
      shape := Grown(shape, i, onLeft, name);
      forall k | 0 <= k < |nodes|
        ensures NodeOk(k)
      {
        if k < |before| {
          assert old(NodeOk(k));
        }
      }
    }
  }
}
