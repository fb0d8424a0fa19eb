/** The string table: chained hash buckets whose slot numbers are permanent identifiers. */
module StringIds {
  import opened Wrappers
  import opened Probing

  // ---------- one bucket ----------

  function Filled(slots: seq<Slot>): (n: nat)
    ensures n <= |slots|
  {
    if slots == [] then 0 else Filled(slots[..|slots| - 1]) + if slots[|slots| - 1].Used? then 1 else 0
  }

  lemma {:induction false} FilledUpdate(slots: seq<Slot>, i: nat, x: Slot)
    requires i < |slots| && slots[i].Empty? && x.Used?
    ensures Filled(slots[i := x]) == Filled(slots) + 1
  {
    var k := |slots| - 1;
    if i < k {
      FilledUpdate(slots[..k], i, x);
      assert slots[i := x][..k] == slots[..k][i := x];
    } else {
      assert slots[i := x][..k] == slots[..k];
    }
  }

  lemma {:induction false} EmptySlot(slots: seq<Slot>) returns (e: nat)
    requires Filled(slots) < |slots|
    ensures e < |slots| && slots[e].Empty?
  {
    var k := |slots| - 1;
    if slots[k].Empty? {
      e := k;
    } else {
      e := EmptySlot(slots[..k]);
    }
  }

  function Primary(s: Str): (p: nat)
    ensures p < HTSIZE
  {
    RawHash(s) % HTSIZE
  }

  function Tried(s: Str, j: nat): (i: nat)
    ensures i < HTSIZE
  {
    Probe(Primary(s), Secondary(s), j)
  }

  /** The string was put in the first empty slot that was tried. */
  predicate Placed(slots: seq<Slot>, s: Str, j: nat)
    requires |slots| == HTSIZE
  {
    && slots[Tried(s, j)] == Used(s, HashBits(s))
    && forall k :: 0 <= k < j ==> slots[Tried(s, k)].Used?
  }

  ghost predicate BucketOk(slots: seq<Slot>) {
    && |slots| == HTSIZE
    && forall i :: 0 <= i < |slots| && slots[i].Used? ==>
       exists j: nat :: Placed(slots, slots[i].str, j) && Tried(slots[i].str, j) == i
  }

  /** The first `j` slots tried hold other strings. */
  predicate Passed(slots: seq<Slot>, s: Str, j: nat)
    requires |slots| == HTSIZE
  {
    forall k :: 0 <= k < j ==> slots[Tried(s, k)].Used? && slots[Tried(s, k)].str != s
  }

  predicate Absent(slots: seq<Slot>, s: Str) {
    forall i :: 0 <= i < |slots| && slots[i].Used? ==> slots[i].str != s
  }

  /** Meeting an empty slot means that the string is not there. */
  lemma EmptyMeansAbsent(slots: seq<Slot>, s: Str, j: nat)
    requires BucketOk(slots) && Passed(slots, s, j) && slots[Tried(s, j)].Empty?
    ensures Absent(slots, s)
  {
    hide Tried;
  }

  lemma BucketInsert(slots: seq<Slot>, s: Str, j: nat)
    requires BucketOk(slots) && Passed(slots, s, j) && slots[Tried(s, j)].Empty?
    ensures BucketOk(slots[Tried(s, j) := Used(s, HashBits(s))])
  {
    hide Tried;
    var i := Tried(s, j);
    var after := slots[i := Used(s, HashBits(s))];
    forall q | 0 <= q < |after| && after[q].Used?
      ensures exists k: nat :: Placed(after, after[q].str, k) && Tried(after[q].str, k) == q
    {
      if q == i {
        assert Placed(after, s, j);
      } else {
        var k: nat :| Placed(slots, slots[q].str, k) && Tried(slots[q].str, k) == q;
        assert Placed(after, after[q].str, k);
      }
    }
  }

  lemma EmptyBucket(slots: seq<Slot>)
    requires |slots| == HTSIZE && forall i :: 0 <= i < |slots| ==> slots[i].Empty?
    ensures BucketOk(slots) && Filled(slots) == 0
  {
    NothingFilled(slots);
  }

  lemma {:induction false} NothingFilled(slots: seq<Slot>)
    requires forall i :: 0 <= i < |slots| ==> slots[i].Empty?
    ensures Filled(slots) == 0
  {
    if slots != [] {
      NothingFilled(slots[..|slots| - 1]);
    }
  }

  // ---------- the table as a value ----------

  const MAX_BUCKETS: nat := 16

  /** The identifier of a slot: 1 for the first slot of the first bucket. */
  function SlotId(k: nat, i: nat): nat {
    1 + k * HTSIZE + i
  }

  predicate Holds(tab: seq<seq<Slot>>, id: nat, s: Str) {
    id >= 1 && (id - 1) / HTSIZE < |tab| && |tab[(id - 1) / HTSIZE]| == HTSIZE
    && tab[(id - 1) / HTSIZE][(id - 1) % HTSIZE].Used? && tab[(id - 1) / HTSIZE][(id - 1) % HTSIZE].str == s
  }

  lemma SlotOfId(k: nat, i: nat)
    requires i < HTSIZE
    ensures (SlotId(k, i) - 1) / HTSIZE == k && (SlotId(k, i) - 1) % HTSIZE == i
  {}

  /** The identifiers that have been given out are exactly those of the filled slots. */
  ghost predicate IdsOk(tab: seq<seq<Slot>>, ids: map<Str, nat>) {
    && (forall k :: 0 <= k < |tab| ==> |tab[k]| == HTSIZE)
    && (forall s :: s in ids ==> Holds(tab, ids[s], s))
    && (forall k: nat, i: nat :: k < |tab| && i < |tab[k]| && tab[k][i].Used? ==>
          tab[k][i].str in ids && ids[tab[k][i].str] == SlotId(k, i))
  }

  /** Different strings have different identifiers. */
  lemma IdsUnique(tab: seq<seq<Slot>>, ids: map<Str, nat>, s: Str, t: Str)
    requires IdsOk(tab, ids) && s in ids && t in ids && ids[s] == ids[t]
    ensures s == t
  {
    assert Holds(tab, ids[s], s) && Holds(tab, ids[t], t);
  }

  lemma IdsInsert(tab: seq<seq<Slot>>, ids: map<Str, nat>, k: nat, i: nat, s: Str)
    requires IdsOk(tab, ids) && k < |tab| && i < HTSIZE && tab[k][i].Empty? && s !in ids
    ensures IdsOk(tab[k := tab[k][i := Used(s, HashBits(s))]], ids[s := SlotId(k, i)])
  {
    hide HashBits;
    var after, more := tab[k := tab[k][i := Used(s, HashBits(s))]], ids[s := SlotId(k, i)];
    SlotOfId(k, i);
    forall t | t in more
      ensures Holds(after, more[t], t)
    {
      if t != s {
        assert Holds(tab, ids[t], t);
      }
    }
  }

  lemma IdsNewBucket(tab: seq<seq<Slot>>, ids: map<Str, nat>, slots: seq<Slot>)
    requires IdsOk(tab, ids) && |slots| == HTSIZE && forall i :: 0 <= i < |slots| ==> slots[i].Empty?
    ensures IdsOk(tab + [slots], ids)
  {
    var after := tab + [slots];
    forall t | t in ids
      ensures Holds(after, ids[t], t)
    {
      assert Holds(tab, ids[t], t);
    }
  }

  lemma AbsentEverywhere(tab: seq<seq<Slot>>, ids: map<Str, nat>, s: Str)
    requires IdsOk(tab, ids) && forall k :: 0 <= k < |tab| ==> Absent(tab[k], s)
    ensures s !in ids
  {
    assert s in ids ==> Holds(tab, ids[s], s);
  }

  // ---------- the table in place ----------

  class StrIDhash {
    const slots: array<Slot>
    const baseid: nat
    var used: nat

    ghost predicate Valid()
      reads this, slots
    {
      slots.Length == HTSIZE && BucketOk(slots[..]) && used == Filled(slots[..]) <= OVERFLOW_POINT
    }

    constructor (baseid: nat)
      ensures Valid() && fresh(slots) && this.baseid == baseid && used == 0
      ensures forall i :: 0 <= i < slots.Length ==> slots[i].Empty?
    {
      this.baseid := baseid;
      slots := new Slot[HTSIZE](i => Empty);
      used := 0;
      new;
      EmptyBucket(slots[..]);
    }

    /** Tries slots until the string or an empty slot is met, which always happens. */
    method Search(s: Str) returns (i: nat, found: bool, ghost j: nat)
      requires Valid()
      ensures i < HTSIZE
      ensures found ==> slots[i].Used? && slots[i].str == s
      ensures !found ==> i == Tried(s, j) && Passed(slots[..], s, j) && slots[i].Empty? && Absent(slots[..], s)
    {
      hide Primary, Secondary, BucketOk, Filled, HashBits, Absent;
      ghost var e := EmptySlot(slots[..]);
      ghost var last := StepsTo(Primary(s), Secondary(s), e);
      i, j := Primary(s), 0;
      while slots[i].Used?
        invariant i < HTSIZE && i == Tried(s, j) && Passed(slots[..], s, j) && j <= last
        decreases last - j
      {
        if slots[i].hashBits == HashBits(s) && slots[i].str == s {
          return i, true, j;
        }
        HashBitsDiffer(slots[..], i, s);
        i := Next(i, Secondary(s));
        j := j + 1;
      }
      EmptyMeansAbsent(slots[..], s, j);
      return i, false, j;
    }

    method Insert(s: Str, i: nat, ghost j: nat)
      requires Valid() && used < OVERFLOW_POINT && i == Tried(s, j) && Passed(slots[..], s, j) && slots[i].Empty?
      modifies this`used, slots
      ensures Valid() && slots[..] == old(slots[..])[i := Used(s, HashBits(s))] && used == old(used) + 1
    {
      hide Tried, BucketOk, Filled, HashBits, Passed;
      BucketInsert(slots[..], s, j);
      FilledUpdate(slots[..], i, Used(s, HashBits(s)));
      slots[i] := Used(s, HashBits(s));
      used := used + 1;
    }
  }

  lemma HashBitsDiffer(slots: seq<Slot>, i: nat, s: Str)
    requires BucketOk(slots) && i < |slots| && slots[i].Used?
    ensures slots[i].str == s ==> slots[i].hashBits == HashBits(s)
  {
    hide HashBits, Tried;
    var j: nat :| Placed(slots, slots[i].str, j) && Tried(slots[i].str, j) == i;
  }

  lemma TriedFirst(s: Str)
    ensures Tried(s, 0) == Primary(s)
  {}

  class StringTable {
    var buckets: seq<StrIDhash>
    /** The identifiers given out so far. */
    ghost var ids: map<Str, nat>
    /** The contents of the buckets, and all objects that hold them. */
    ghost var tab: seq<seq<Slot>>
    ghost var Repr: set<object>

    ghost predicate Valid()
      reads this, Repr
    {
      && |buckets| == |tab| <= MAX_BUCKETS && this !in Repr
      && (forall k :: 0 <= k < |buckets| ==>
            buckets[k] in Repr && buckets[k].slots in Repr && buckets[k].Valid()
            && buckets[k].baseid == SlotId(k, 0) && tab[k] == buckets[k].slots[..])
      && (forall k :: 0 <= k < |buckets| - 1 ==> buckets[k].used >= OVERFLOW_POINT)
      && (forall k, q :: 0 <= k < q < |buckets| ==> buckets[k] != buckets[q] && buckets[k].slots != buckets[q].slots)
      && IdsOk(tab, ids)
    }

    /** All sixteen buckets have been made, and the last is full to four fifths. */
    ghost predicate Full()
      reads this
    {
      |tab| == 16 && Filled(tab[15]) >= 1602
    }

    constructor ()
      ensures Valid() && ids == map[] && Repr == {}
    {
      buckets, ids, tab, Repr := [], map[], [], {};
    }

    /** Looks through the chained buckets; without success, `k` is the last one. */
    method Find(s: Str) returns (k: nat, i: nat, found: bool, ghost j: nat)
      requires Valid() && buckets != []
      ensures k < |buckets| && i < HTSIZE && (found <==> s in ids)
      ensures found ==> ids[s] == SlotId(k, i)
      ensures !found ==> k == |buckets| - 1 && i == Tried(s, j) && Passed(buckets[k].slots[..], s, j)
                         && buckets[k].slots[i].Empty?
    {
      hide Tried, BucketOk, Filled, HashBits, Passed, Holds;
      k := 0;
      while true
        invariant k < |buckets| && forall q :: 0 <= q < k ==> Absent(tab[q], s)
        decreases |buckets| - k
      {
        i, found, j := buckets[k].Search(s);
        if found || k + 1 == |buckets| {
          break;
        }
        k := k + 1;
      }
      if found {
        assert tab[k][i].Used?;
      } else {
        AbsentEverywhere(tab, ids, s);
      }
    }

    /** Chains a new bucket; the string's first slot in it is free. */
    method AddBucket(s: Str) returns (i: nat, ghost j: nat)
      requires Valid() && |buckets| < MAX_BUCKETS
      requires buckets != [] ==> buckets[|buckets| - 1].used >= OVERFLOW_POINT
      modifies this`buckets, this`tab, this`Repr
      ensures Valid() && ids == old(ids) && |buckets| == |old(buckets)| + 1
      ensures fresh(Repr - old(Repr)) && old(Repr) <= Repr
      ensures var h := buckets[|buckets| - 1];
              h.used == 0 && i == Tried(s, j) && Passed(h.slots[..], s, j) && h.slots[i].Empty?
    {
      hide Tried, BucketOk, Filled, HashBits, IdsOk;
      var h := new StrIDhash(if buckets == [] then 1 else buckets[|buckets| - 1].baseid + HTSIZE);
      IdsNewBucket(tab, ids, h.slots[..]);
      buckets, tab, Repr := buckets + [h], tab + [h.slots[..]], Repr + {h, h.slots};
      i, j := Primary(s), 0;
      TriedFirst(s);
    }

    /** Fills a free slot of the last bucket. */
    method Put(s: Str, k: nat, i: nat, ghost j: nat)
      requires Valid() && s !in ids && k < |buckets| && k == |buckets| - 1 && buckets[k].used < OVERFLOW_POINT
      requires i == Tried(s, j) && Passed(buckets[k].slots[..], s, j) && buckets[k].slots[i].Empty?
      modifies this`ids, this`tab, buckets[k], buckets[k].slots
      ensures Valid() && ids == old(ids)[s := SlotId(k, i)]
    {
      hide Tried, BucketOk, Filled, HashBits, IdsOk, Passed;
      IdsInsert(tab, ids, k, i, s);
      buckets[k].Insert(s, i, j);
      ids, tab := ids[s := SlotId(k, i)], tab[k := tab[k][i := Used(s, HashBits(s))]];
    }

    /** The identifier of a string, which it keeps for good. None when the table is full. */
    method Str2ID(s: Str) returns (r: Option<nat>)
      requires Valid()
      modifies this, Repr
      ensures Valid() && fresh(Repr - old(Repr))
      ensures r == None <==> s !in old(ids) && old(Full())
      ensures ids == if r == None then old(ids) else old(ids)[s := r.value]
      ensures r != None && s in old(ids) ==> r.value == old(ids)[s]
      ensures r != None ==> 1 <= r.value <= 32048
    {
      hide Tried, BucketOk, Filled, HashBits, Passed, Holds, IdsOk;
      var k, i, found := 0, 0, false;
      ghost var j := 0;
      if buckets != [] {
        k, i, found, j := Find(s);
        if found {
          return Some(buckets[k].baseid + i);
        }
      } else {
        assert s !in ids by { AbsentEverywhere(tab, ids, s); }
      }
      if buckets == [] || buckets[k].used >= OVERFLOW_POINT {
        if buckets != [] && buckets[k].baseid > 30000 {
          return None;
        }
        i, j := AddBucket(s);
        k := |buckets| - 1;
      }
      Put(s, k, i, j);
      r := Some(buckets[k].baseid + i);
    }

    /** The string that an identifier was given to. */
    method ID2Str(id: nat) returns (s: Str)
      requires Valid() && exists t :: t in ids && ids[t] == id
      ensures s in ids && ids[s] == id
    {
      hide BucketOk, Filled;
      ghost var t: Str :| t in ids && ids[t] == id;
      assert Holds(tab, id, t);
      var k := 0;
      while id - buckets[k].baseid >= HTSIZE
        invariant k <= (id - 1) / HTSIZE < |buckets| && id >= buckets[k].baseid
        decreases |buckets| - k
      {
        k := k + 1;
      }
      var entry := id - buckets[k].baseid;
      SlotOfId(k, entry);
      s := buckets[k].slots[entry].str;
    }
  }
}
