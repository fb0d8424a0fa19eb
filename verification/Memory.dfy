/** The compiler's memory blocks: a doubly linked list of all of them, and a hash index by address. */
module Memory {
  class MemoryObject {
    /** The address of the block; 0 for the list's first object, which has none. */
    var data: nat
    var next: MemoryObject?
    var prev: MemoryObject?
    var hashNext: MemoryObject?

    constructor (data: nat)
      ensures this.data == data && next == null && prev == null && hashNext == null
    {
      this.data, next, prev, hashNext := data, null, null, null;
    }
  }

  const HASH_SIZE: nat := 65536

  /** The high bits of a 32-bit product. */
  function HashOf(data: nat): (h: nat)
    ensures h < HASH_SIZE
  {
    (data / 16 % 0x1_0000_0000) * 2654435761 % 0x1_0000_0000 / 0x1_0000
  }

  function At(s: seq<MemoryObject>, i: int): MemoryObject? {
    if 0 <= i < |s| then s[i] else null
  }

  predicate Distinct(s: seq<MemoryObject>) {
    forall i, j :: 0 <= i < j < |s| ==> s[i] != s[j]
  }

  function Without(s: seq<MemoryObject>, j: nat): seq<MemoryObject>
    requires j < |s|
  {
    s[..j] + s[j + 1..]
  }

  lemma WithoutIs(s: seq<MemoryObject>, j: nat)
    requires j < |s| && Distinct(s)
    ensures |Without(s, j)| == |s| - 1 && Distinct(Without(s, j)) && s[j] !in Without(s, j)
    ensures forall k :: 0 <= k < |s| - 1 ==> Without(s, j)[k] == s[if k < j then k else k + 1]
    ensures forall o :: o in s && o != s[j] ==> o in Without(s, j)
  {
    forall o | o in s && o != s[j]
      ensures o in Without(s, j)
    {
      var k :| 0 <= k < |s| && s[k] == o;
      assert Without(s, j)[if k < j then k else k - 1] == o;
    }
  }

  function DataOf(list: seq<MemoryObject>): (r: seq<nat>)
    reads list`data
    ensures |r| == |list| && forall i :: 0 <= i < |list| ==> r[i] == list[i].data
  {
    if list == [] then [] else DataOf(list[..|list| - 1]) + [list[|list| - 1].data]
  }

  /** After the first come the live addresses, each once. */
  ghost predicate Addresses(data: seq<nat>, live: set<nat>) {
    && data != [] && data[0] == 0 && 0 !in live
    && (forall i :: 1 <= i < |data| ==> data[i] in live)
    && (forall i, j :: 0 <= i < j < |data| ==> data[i] != data[j])
    && (forall a :: a in live ==> exists i :: 1 <= i < |data| && data[i] == a)
  }

  lemma AddressesAppend(data: seq<nat>, live: set<nat>, a: nat)
    requires Addresses(data, live) && a != 0 && a !in live
    ensures Addresses(data + [a], live + {a})
  {
    var more := data + [a];
    forall b | b in live + {a}
      ensures exists i :: 1 <= i < |more| && more[i] == b
    {
      if b == a {
        assert more[|data|] == b;
      } else {
        var i :| 1 <= i < |data| && data[i] == b;
        assert more[i] == b;
      }
    }
  }

  lemma AddressesRemove(data: seq<nat>, live: set<nat>, i: nat)
    requires Addresses(data, live) && 1 <= i < |data|
    ensures Addresses(data[..i] + data[i + 1..], live - {data[i]}) && data[i] in live
  {
    var less := data[..i] + data[i + 1..];
    forall b | b in live - {data[i]}
      ensures exists k :: 1 <= k < |less| && less[k] == b
    {
      var k :| 1 <= k < |data| && data[k] == b;
      assert less[if k < i then k else k - 1] == b;
    }
  }

  lemma AddressesChange(data: seq<nat>, live: set<nat>, i: nat, a: nat)
    requires Addresses(data, live) && 1 <= i < |data| && a != 0 && a !in live - {data[i]}
    ensures Addresses(data[i := a], live - {data[i]} + {a})
  {
    var other := data[i := a];
    forall b | b in live - {data[i]} + {a}
      ensures exists k :: 1 <= k < |other| && other[k] == b
    {
      if b == a {
        assert other[i] == b;
      } else {
        var k :| 1 <= k < |data| && data[k] == b;
        assert other[k] == b;
      }
    }
  }

  lemma PlaceOf(list: seq<MemoryObject>, o: MemoryObject) returns (i: nat)
    requires list != [] && o in list && o != list[0]
    ensures 1 <= i < |list| && list[i] == o
  {
    i :| 0 <= i < |list| && list[i] == o;
  }

  lemma DataAppend(list: seq<MemoryObject>, o: MemoryObject)
    ensures DataOf(list + [o]) == DataOf(list) + [o.data]
  {
    assert (list + [o])[..|list|] == list;
  }

  lemma DataWithout(list: seq<MemoryObject>, i: nat)
    requires i < |list| && Distinct(list)
    ensures DataOf(Without(list, i)) == DataOf(list)[..i] + DataOf(list)[i + 1..]
  {
    hide DataOf;
    WithoutIs(list, i);
  }

  lemma NotLive(data: seq<nat>, live: set<nat>, a: nat)
    requires Addresses(data, live) && forall i :: 1 <= i < |data| ==> data[i] != a
    ensures a !in live
  {}

  class MemoryList {
    var begin: MemoryObject
    var end: MemoryObject
    const hash: array<MemoryObject?>
    /** The addresses of the live blocks. */
    ghost var live: set<nat>
    /** The objects in list order, and those of each bucket. */
    ghost var nodes: seq<MemoryObject>
    ghost var chains: seq<seq<MemoryObject>>

    /** The list: links that are inverse to each other. */
    ghost predicate Linked()
      reads `nodes, `begin, `end, nodes`next, nodes`prev
    {
      && nodes != [] && begin == nodes[0] && end == nodes[|nodes| - 1] && Distinct(nodes)
      && forall i :: 0 <= i < |nodes| ==> NodeLinked(i)
    }

    ghost predicate NodeLinked(i: nat)
      requires i < |nodes|
      reads `nodes, nodes`next, nodes`prev
    {
      nodes[i].next == At(nodes, i + 1) && nodes[i].prev == At(nodes, i - 1)
    }

    /** The list holds the live blocks, each once, after its first object. */
    ghost predicate Addressed()
      reads `nodes, `live, nodes`data
    {
      Addresses(DataOf(nodes), live)
    }

    /** The index: each object of the list in its own bucket, once, apart from `out`, which is in none. */
    ghost predicate Indexed(out: MemoryObject?)
      reads `nodes, `begin, `chains, nodes`data, nodes`hashNext, hash
    {
      IndexOf(nodes, out)
    }

    ghost predicate IndexOf(list: seq<MemoryObject>, out: MemoryObject?)
      reads `begin, `chains, list`data, list`hashNext, hash
    {
      && hash.Length == |chains| == HASH_SIZE
      && (forall b :: 0 <= b < HASH_SIZE ==> hash[b] == At(chains[b], 0) && Distinct(chains[b]))
      && (forall b, j :: 0 <= b < HASH_SIZE && 0 <= j < |chains[b]| ==>
            InBucket(list, chains[b], b, j) && chains[b][j] != out)
      && (forall i :: 1 <= i < |list| && list[i] != out ==> list[i] in chains[HashOf(list[i].data)])
    }

    ghost predicate InBucket(list: seq<MemoryObject>, chain: seq<MemoryObject>, b: nat, j: nat)
      requires j < |chain|
      reads `begin, list`data, list`hashNext
    {
      && chain[j] in list && chain[j] != begin && HashOf(chain[j].data) == b
      && chain[j].hashNext == At(chain, j + 1)
    }

    ghost predicate Valid()
      reads this, nodes, hash
    {
      Linked() && Addressed() && Indexed(null)
    }

    /** An empty list, with the one object that stays at its beginning. */
    constructor ()
      ensures Valid() && live == {} && fresh(hash) && forall o :: o in nodes ==> fresh(o)
    {
      var o := new MemoryObject(0);
      begin, end, live, nodes := o, o, {}, [o];
      hash := new MemoryObject?[HASH_SIZE](i => null);
      chains := seq(HASH_SIZE, i => []);
    }

    method HashInsert(o: MemoryObject)
      requires Indexed(o) && o in nodes && o != begin
      modifies this`chains, hash, o`hashNext
      ensures Indexed(null)
    {
      hide HashOf;
      var bucket := HashOf(o.data);
      ghost var chain := [o] + chains[bucket];
      o.hashNext := hash[bucket];
      hash[bucket] := o;
      ghost var was := chains;
      chains := chains[bucket := chain];
      forall b, j | 0 <= b < HASH_SIZE && 0 <= j < |chains[b]|
        ensures InBucket(nodes, chains[b], b, j)
      {
        if b == bucket && j > 0 {
          assert InBucket(nodes, was[b], b, j - 1);
        } else if b != bucket {
          assert InBucket(nodes, was[b], b, j);
        }
      }
    }

    /** Takes the object of an address out of the index; null if there is none. */
    method HashRemove(data: nat) returns (o: MemoryObject?)
      requires Indexed(null) && nodes != [] && begin == nodes[0]
      modifies this`chains, hash, nodes`hashNext
      ensures o == null ==> chains == old(chains) && Indexed(null) && forall i :: 1 <= i < |nodes| ==>
              nodes[i].data != data
      ensures o != null ==> o in nodes && o != begin && o.data == data && Indexed(o)
    {
      hide HashOf;
      var bucket := HashOf(data);
      var link: MemoryObject? := null;
      o := hash[bucket];
      ghost var j := 0;
      while o != null
        invariant j <= |chains[bucket]| && o == At(chains[bucket], j) && link == At(chains[bucket], j - 1)
        invariant forall i :: 0 <= i < j ==> chains[bucket][i].data != data
        decreases |chains[bucket]| - j
      {
        assert InBucket(nodes, chains[bucket], bucket, j);
        if o.data == data {
          Unchain(bucket, link, o, j);
          return;
        }
        link, o, j := o, o.hashNext, j + 1;
      }
    }

    /** Makes the link that leads to an object lead past it. */
    method Unchain(bucket: nat, link: MemoryObject?, o: MemoryObject, ghost j: nat)
      requires Indexed(null) && bucket < HASH_SIZE && j < |chains[bucket]|
      requires o == chains[bucket][j] && link == At(chains[bucket], j - 1)
      modifies this`chains, hash, nodes`hashNext
      ensures Indexed(o)
    {
      hide HashOf, Without, Distinct, At;
      LinkInBucket(bucket, j);
      HeadWithout(chains[bucket], j);
      WithoutIs(chains[bucket], j);
      if link == null {
        hash[bucket] := o.hashNext;
      } else {
        link.hashNext := o.hashNext;
      }
      chains := chains[bucket := Without(chains[bucket], j)];
      forall b, k | 0 <= b < HASH_SIZE && 0 <= k < |chains[b]|
        ensures InBucket(nodes, chains[b], b, k)
      {
        var q := if b == bucket && k >= j then k + 1 else k;
        assert old(InBucket(nodes, chains[b], b, q));
        if b == bucket {
          NextWithout(old(chains)[b], j, k);
        }
      }
    }

    lemma LinkInBucket(bucket: nat, j: nat)
      requires Indexed(null) && bucket < HASH_SIZE && j < |chains[bucket]|
      ensures var link := At(chains[bucket], j - 1); link != null ==> link in nodes && HashOf(link.data) == bucket
      ensures hash.Length == |chains| == HASH_SIZE
      ensures At(chains[bucket], j - 1) == null <==> j == 0
    {
      hide HashOf;
      if j > 0 {
        assert InBucket(nodes, chains[bucket], bucket, j - 1);
      }
    }

    /** Appends a block; `address` is what the system gave, 0 when it had none. */
    method MemAlloc(address: nat) returns (data: nat)
      requires Valid() && address !in live
      modifies this, hash, nodes
      ensures Valid() && data == address
      ensures if address == 0 then live == old(live) && nodes == old(nodes)
              else live == old(live) + {address} && nodes[..|nodes| - 1] == old(nodes) && fresh(nodes[|nodes| - 1])
                   && nodes[|nodes| - 1].data == address
    {
      hide HashOf, Linked, Addresses, IndexOf, DataOf, Distinct, Without;
      if address == 0 {
        return 0;
      }
      var wrapper := new MemoryObject(address);
      ghost var before := nodes;
      AddressesAppend(DataOf(before), live, address);
      ListStart();
      live := live + {address};
      Append(wrapper);
      DataAppend(before, wrapper);
      IndexAppend(before, wrapper);
      HashInsert(wrapper);
      data := address;
    }

    /** Links an object to the end of the list. */
    method Append(o: MemoryObject)
      requires Linked() && o !in nodes && o.next == null
      modifies `nodes, `end, nodes`next, o`prev
      ensures Linked() && nodes == old(nodes) + [o] && begin == nodes[0]
    {
      hide Distinct, At;
      ghost var n := |nodes|;
      o.prev := end;
      end.next := o;
      end := o;
      nodes := nodes + [o];
      DistinctAppend(old(nodes), o);
      forall i | 0 <= i < |nodes|
        ensures NodeLinked(i)
      {
        if i < n {
          assert old(NodeLinked(i));
          AtAppend(old(nodes), o, i);
          OnlyLast(old(nodes), i);
        } else {
          AtAppend(old(nodes), o, i);
          AtIndex(old(nodes), n - 1);
        }
      }
    }

    /** Unlinks an object other than the first from the list. */
    method Unlink(o: MemoryObject, ghost i: nat)
      requires Linked() && 1 <= i < |nodes| && o == nodes[i]
      modifies `nodes, `end, nodes`next, nodes`prev
      ensures Linked() && nodes == Without(old(nodes), i) && begin == nodes[0]
    {
      hide Distinct, At, Without;
      ghost var before := nodes;
      assert NodeLinked(i);
      Neighbours(before, i);
      WithoutIs(before, i);
      if o.prev != null {
        o.prev.next := o.next;
      }
      if o.next != null {
        o.next.prev := o.prev;
      }
      if o.next == null && o.prev != null {
        end := o.prev;
      }
      nodes := Without(nodes, i);
      forall q | 0 <= q < |nodes|
        ensures NodeLinked(q)
      {
        assert old(NodeLinked(if q < i then q else q + 1));
        NextWithout(before, i, q);
        PrevWithout(before, i, q);
      }
    }

    lemma IndexRemove(before: seq<MemoryObject>, i: nat)
      requires 1 <= i < |before| && Distinct(before) && IndexOf(before, before[i]) && nodes == Without(before, i)
      ensures Indexed(null)
    {
      hide HashOf, Distinct, Without;
      WithoutIs(before, i);
      forall b, j | 0 <= b < HASH_SIZE && 0 <= j < |chains[b]|
        ensures InBucket(nodes, chains[b], b, j)
      {
        assert InBucket(before, chains[b], b, j);
      }
    }

    /** Frees a block; an address that is not in the list is ignored. */
    method MemFree(oldBlock: nat)
      requires Valid()
      modifies this, hash, nodes
      ensures Valid() && live == old(live) - {oldBlock}
      ensures oldBlock !in old(live) ==> nodes == old(nodes)
    {
      hide HashOf, Linked, Addresses, IndexOf, DataOf, Distinct, Without;
      ListStart();
      if oldBlock == 0 {
        return;
      }
      var it := HashRemove(oldBlock);
      ghost var before := nodes;
      if it == null {
        NotLive(DataOf(before), live, oldBlock);
        return;
      }
      ghost var i := PlaceOf(before, it);
      AddressesRemove(DataOf(before), live, i);
      Unlink(it, i);
      DataWithout(before, i);
      IndexRemove(before, i);
      live := live - {oldBlock};
    }

    /** Moves a live block to another address, in its place in the list; a new block for none. */
    method MemRealloc(oldBlock: nat, address: nat) returns (data: nat)
      requires Valid() && address != 0 && address !in live - {oldBlock} && (oldBlock != 0 ==> oldBlock in live)
      modifies this, hash, nodes
      ensures Valid() && data == address && live == old(live) - {oldBlock} + {address}
      ensures oldBlock != 0 ==> nodes == old(nodes)
    {
      hide HashOf, Linked, Addresses, IndexOf, DataOf, Distinct, Without;
      ListStart();
      if oldBlock == 0 {
        data := MemAlloc(address);
        return;
      }
      var it := HashRemove(oldBlock);
      if it == null {
        NotLive(DataOf(nodes), live, oldBlock);
        assert false;
      } else {
        Readdress(it, address);
        HashInsert(it);
      }
      data := address;
    }

    /** Gives an object that is out of the index another address. */
    method Readdress(o: MemoryObject, address: nat)
      requires Linked() && Addressed() && Indexed(o) && o in nodes && o != begin && begin == nodes[0] && Distinct(nodes)
      requires address != 0 && address !in live - {o.data}
      modifies `live, o`data
      ensures Linked() && Addressed() && Indexed(o) && live == old(live) - {old(o.data)} + {address}
    {
      hide HashOf, Linked, Addresses, DataOf;
      ghost var i := PlaceOf(nodes, o);
      ghost var was := DataOf(nodes);
      AddressesChange(was, live, i, address);
      o.data := address;
      live := live - {was[i]} + {address};
      assert DataOf(nodes) == was[i := address];
      hide Distinct;
      forall b, j | 0 <= b < HASH_SIZE && 0 <= j < |chains[b]|
        ensures InBucket(nodes, chains[b], b, j)
      {
        assert old(InBucket(nodes, chains[b], b, j));
      }
    }

    /** The two views agree: an address is live exactly if its own bucket has an object for it, and
        then that object is in the list. */
    lemma ViewsAgree(a: nat)
      requires Valid()
      ensures a in live <==> exists j :: 0 <= j < |chains[HashOf(a)]| && chains[HashOf(a)][j].data == a
      ensures forall j :: 0 <= j < |chains[HashOf(a)]| ==> chains[HashOf(a)][j] in nodes
    {
      hide HashOf, Linked;
      var data := DataOf(nodes);
      var chain := chains[HashOf(a)];
      forall j | 0 <= j < |chain|
        ensures chain[j] in nodes && chain[j].data in live
      {
        assert InBucket(nodes, chain, HashOf(a), j);
        BeginFirst();
        var i := PlaceOf(nodes, chain[j]);
        assert data[i] in live;
      }
      if a in live {
        var i :| 1 <= i < |data| && data[i] == a;
        assert nodes[i] in chain;
      }
    }

    lemma BeginFirst()
      requires Linked()
      ensures nodes != [] && begin == nodes[0]
    {
    }

    lemma ListStart()
      requires Linked() && Addressed()
      ensures nodes != [] && begin == nodes[0] && Distinct(nodes) && 0 !in live
    {
    }

    lemma IndexAppend(before: seq<MemoryObject>, o: MemoryObject)
      requires IndexOf(before, null) && nodes == before + [o] && o !in before && before != []
      ensures Indexed(o)
    {
      hide HashOf, Distinct;
      forall b, j | 0 <= b < HASH_SIZE && 0 <= j < |chains[b]|
        ensures InBucket(nodes, chains[b], b, j) && chains[b][j] != o
      {
        assert InBucket(before, chains[b], b, j);
      }
    }
  }

  /** The objects before and after the one at place `i`. */
  lemma Neighbours(s: seq<MemoryObject>, i: nat)
    requires 1 <= i < |s|
    ensures At(s, i - 1) == s[i - 1]
    ensures At(s, i + 1) == if i + 1 < |s| then s[i + 1] else null
  {}

  lemma PrevWithout(s: seq<MemoryObject>, j: nat, k: nat)
    requires Distinct(s) && j < |s| && k < |s| - 1
    ensures var q := if k < j then k else k + 1;
            && At(Without(s, j), k - 1) == (if q == j + 1 then At(s, j - 1) else At(s, q - 1))
            && (At(s, j + 1) == s[q] <==> q == j + 1)
  {}

  lemma AtIndex(s: seq<MemoryObject>, j: nat)
    requires j < |s|
    ensures At(s, j) == s[j]
  {}

  lemma DistinctAppend(s: seq<MemoryObject>, o: MemoryObject)
    requires Distinct(s) && o !in s
    ensures Distinct(s + [o])
  {}

  lemma AtAppend(s: seq<MemoryObject>, o: MemoryObject, i: nat)
    requires i <= |s|
    ensures At(s + [o], i + 1) == (if i < |s| - 1 then At(s, i + 1) else if i == |s| - 1 then o else null)
    ensures At(s + [o], i - 1) == At(s, i - 1)
  {}

  lemma OnlyLast(s: seq<MemoryObject>, i: nat)
    requires Distinct(s) && i < |s|
    ensures s[i] == s[|s| - 1] <==> i == |s| - 1
  {}

  lemma HeadWithout(s: seq<MemoryObject>, j: nat)
    requires j < |s|
    ensures At(Without(s, j), 0) == if j == 0 then At(s, 1) else At(s, 0)
  {}

  /** What follows an object, once the one at place `j` is left out. */
  lemma NextWithout(s: seq<MemoryObject>, j: nat, k: nat)
    requires Distinct(s) && j < |s| && k < |s| - 1
    ensures var q := if k < j then k else k + 1;
            && Without(s, j)[k] == s[q]
            && At(Without(s, j), k + 1) == (if q == j - 1 then At(s, j + 1) else At(s, q + 1))
            && (At(s, j - 1) == s[q] <==> q == j - 1)
  {}
}
