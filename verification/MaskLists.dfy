/** Merging the lists of subroutines: the merged list is the greatest that both lists contain exactly if
    they have their common subroutines in the same order. */
module MaskLists {
  import opened MergeStates

  // ---------- keeping all entries ----------

  /** The entries of `r` occur in those of `s`, in their order. */
  predicate Within(r: seq<Mask>, s: seq<Mask>) {
    r == [] || (s != [] && ((r[0].entry == s[0].entry && Within(r[1..], s[1..])) || Within(r, s[1..])))
  }

  /** Merging two lists with the same entries keeps all of them, and unites their registers. */
  lemma {:induction false} SameEntriesMerge(cur: seq<Mask>, inc: seq<Mask>)
    requires |cur| == |inc| && forall i :: 0 <= i < |cur| ==> cur[i].entry == inc[i].entry
    ensures var r := MergedMasks(cur, inc);
            |r| == |cur| && forall i :: 0 <= i < |cur| ==> r[i] == Mask(cur[i].entry, cur[i].changed + inc[i].changed)
  {
    if cur != [] {
      assert FindEntry(inc, cur[0].entry) == 0;
      SameEntriesMerge(cur[1..], inc[1..]);
    }
  }

  lemma {:induction false} WithinTail(r: seq<Mask>, s: seq<Mask>)
    requires r != [] && Within(r, s)
    ensures Within(r[1..], s) && s != [] && Within(r[1..], s[1..])
  {
    if !(r[0].entry == s[0].entry && Within(r[1..], s[1..])) {
      WithinTail(r, s[1..]);
    }
    if r[1..] != [] {
      assert Within(r[1..], s);
    }
  }

  /** The search may start at the first match: nothing is lost by taking it. */
  lemma {:induction false} WithinFirst(r: seq<Mask>, s: seq<Mask>)
    requires r != []
    ensures var j := FindEntry(s, r[0].entry);
            Within(r, s) <==> j < |s| && Within(r[1..], s[j + 1..])
  {
    if s != [] {
      if s[0].entry == r[0].entry {
        if Within(r, s[1..]) {
          WithinTail(r, s[1..]);
        }
      } else {
        WithinFirst(r, s[1..]);
        var j := FindEntry(s[1..], r[0].entry);
        if j < |s[1..]| {
          assert s[1..][j + 1..] == s[j + 2..];
        }
      }
    }
  }

  /** The merged list is never longer than the recorded one, and all recorded subroutines are kept if and only
      if they occur, in their order, in the incoming list. */
  lemma {:induction false} AllEntriesKeptIff(cur: seq<Mask>, inc: seq<Mask>)
    ensures |MergedMasks(cur, inc)| <= |cur|
    ensures |MergedMasks(cur, inc)| == |cur| <==> Within(cur, inc)
    decreases |cur|
  {
    if cur != [] {
      WithinFirst(cur, inc);
      var j := FindEntry(inc, cur[0].entry);
      if j == |inc| {
        AllEntriesKeptIff(cur[1..], inc);
      } else {
        AllEntriesKeptIff(cur[1..], inc[j + 1..]);
      }
    }
  }

  // ---------- the greatest common list ----------

  predicate Distinct(s: seq<Mask>) {
    forall i, j :: 0 <= i < j < |s| ==> s[i].entry != s[j].entry
  }

  /** No two subroutines come in one order in one list and in the other order in the other. */
  predicate SameOrder(cur: seq<Mask>, inc: seq<Mask>) {
    forall i, j, p, q :: 0 <= i < j < |cur| && 0 <= p < q < |inc| ==>
      !(cur[i].entry == inc[q].entry && cur[j].entry == inc[p].entry)
  }

  ghost predicate Greatest(r: seq<Mask>, cur: seq<Mask>, inc: seq<Mask>) {
    forall t: seq<Mask> :: Embeds(t, cur) && Embeds(t, inc) ==> Embeds(t, r)
  }

  /** Where an entry of an embedded list stands in the list that it is embedded in. */
  lemma {:induction false} EntryPlace(r: seq<Mask>, s: seq<Mask>, a: nat) returns (i: nat)
    requires Embeds(r, s) && a < |r|
    ensures a <= i < |s| && s[i].entry == r[a].entry && s[i].changed <= r[a].changed
    decreases |s|
  {
    if r[0].entry == s[0].entry && s[0].changed <= r[0].changed && Embeds(r[1..], s[1..]) {
      if a == 0 {
        i := 0;
      } else {
        i := EntryPlace(r[1..], s[1..], a - 1);
        i := i + 1;
      }
    } else {
      i := EntryPlace(r, s[1..], a);
      i := i + 1;
    }
  }

  /** The entries before the first that matches do not matter. */
  lemma {:induction false} EmbedsBehind(r: seq<Mask>, s: seq<Mask>, j: nat)
    requires Embeds(r, s) && r != [] && j <= |s| && forall i :: 0 <= i < j ==> s[i].entry != r[0].entry
    ensures Embeds(r, s[j..])
  {
    if j == 0 {
      assert s[0..] == s;
    } else {
      EmbedsBehind(r, s[1..], j - 1);
      assert s[1..][j - 1..] == s[j..];
    }
  }

  /** In a list without repetitions, the first entry can only be embedded at its own place. */
  lemma EmbedsAt(r: seq<Mask>, s: seq<Mask>, j: nat)
    requires Embeds(r, s) && r != [] && Distinct(s) && j < |s| && s[j].entry == r[0].entry
    ensures s[j].changed <= r[0].changed && Embeds(r[1..], s[j + 1..])
  {
    EmbedsBehind(r, s, j);
    var u := s[j..];
    assert u[0] == s[j] && u[1..] == s[j + 1..];
    if !(u[0].changed <= r[0].changed && Embeds(r[1..], u[1..])) {
      var i := EntryPlace(r, u[1..], 0);
    }
  }

  lemma {:induction false} SameOrderGreatest(cur: seq<Mask>, inc: seq<Mask>, t: seq<Mask>)
    requires Distinct(cur) && Distinct(inc) && SameOrder(cur, inc) && Embeds(t, cur) && Embeds(t, inc)
    ensures Embeds(t, MergedMasks(cur, inc))
    decreases |cur|
  {
    if t != [] {
      var j := FindEntry(inc, cur[0].entry);
      var k := if j == |inc| then 0 else j + 1;
      SameOrderTails(cur, inc, k);
      assert inc[0..] == inc;
      if t[0].entry == cur[0].entry {
        var place := EntryPlace(t, inc, 0);
        EmbedsAt(t, cur, 0);
        EmbedsAt(t, inc, j);
        hide Distinct, SameOrder;
        SameOrderGreatest(cur[1..], inc[k..], t[1..]);
        var r := MergedMasks(cur, inc);
        assert r[1..] == MergedMasks(cur[1..], inc[k..]);
      } else {
        EmbedsBehind(t, cur, 1);
        if j < |inc| {
          NotBefore(cur, inc, t, j);
        }
        EmbedsBehind(t, inc, k);
        hide Distinct, SameOrder;
        SameOrderGreatest(cur[1..], inc[k..], t);
        var r := MergedMasks(cur, inc);
        assert j < |inc| ==> r[1..] == MergedMasks(cur[1..], inc[k..]);
      }
    }
  }

  lemma SameOrderTails(cur: seq<Mask>, inc: seq<Mask>, k: nat)
    requires cur != [] && k <= |inc| && Distinct(cur) && Distinct(inc) && SameOrder(cur, inc)
    ensures Distinct(cur[1..]) && Distinct(inc[k..]) && SameOrder(cur[1..], inc[k..])
  {}

  /** What comes later in the one list does not come before in the other. */
  lemma NotBefore(cur: seq<Mask>, inc: seq<Mask>, t: seq<Mask>, j: nat)
    requires SameOrder(cur, inc) && Distinct(inc) && t != [] && cur != [] && Embeds(t, cur[1..])
    requires j < |inc| && inc[j].entry == cur[0].entry != t[0].entry
    ensures forall i :: 0 <= i < j + 1 ==> inc[i].entry != t[0].entry
  {
    var k := EntryPlace(t, cur[1..], 0);
    assert cur[k + 1].entry == t[0].entry;
  }

  /** Two entries of an embedded list come in the order that they have in the list. */
  lemma {:induction false} OrderKept(r: seq<Mask>, s: seq<Mask>, a: nat, b: nat, i: nat, j: nat)
    requires Embeds(r, s) && Distinct(s) && a < b < |r| && i < |s| && j < |s|
    requires r[a].entry == s[i].entry && r[b].entry == s[j].entry
    ensures i < j
    decreases |s|
  {
    assert Distinct(s[1..]);
    if r[0].entry == s[0].entry && s[0].changed <= r[0].changed && Embeds(r[1..], s[1..]) {
      var k := EntryPlace(r[1..], s[1..], b - 1);
      assert s[k + 1].entry == s[j].entry;
      if a > 0 {
        var l := EntryPlace(r[1..], s[1..], a - 1);
        assert s[l + 1].entry == s[i].entry;
        OrderKept(r[1..], s[1..], a - 1, b - 1, i - 1, j - 1);
      }
    } else {
      var k := EntryPlace(r, s[1..], b);
      var l := EntryPlace(r, s[1..], a);
      assert s[k + 1].entry == s[j].entry && s[l + 1].entry == s[i].entry;
      OrderKept(r, s[1..], a, b, i - 1, j - 1);
    }
  }

  /** A list of one subroutine that both lists have. */
  lemma {:induction false} OneEmbeds(m: Mask, s: seq<Mask>, i: nat)
    requires i < |s| && s[i].entry == m.entry && s[i].changed <= m.changed
    ensures Embeds([m], s)
  {
    if i == 0 {
      assert [m][1..] == [] && Embeds([], s[1..]);
    } else {
      OneEmbeds(m, s[1..], i - 1);
    }
  }

  /** Two subroutines in different orders: either of them is common, but not both. */
  lemma OtherOrder(cur: seq<Mask>, inc: seq<Mask>, r: seq<Mask>, i: nat, j: nat, p: nat, q: nat)
    requires Distinct(cur) && Distinct(inc) && Embeds(r, cur) && Embeds(r, inc)
    requires i < j < |cur| && p < q < |inc| && cur[i].entry == inc[q].entry && cur[j].entry == inc[p].entry
    ensures !Greatest(r, cur, inc)
  {
    hide Embeds, Distinct;
    var x := Mask(cur[i].entry, cur[i].changed + inc[q].changed);
    var y := Mask(cur[j].entry, cur[j].changed + inc[p].changed);
    OneEmbeds(x, cur, i);
    OneEmbeds(x, inc, q);
    OneEmbeds(y, cur, j);
    OneEmbeds(y, inc, p);
    if Greatest(r, cur, inc) {
      assert Embeds([x], r) && Embeds([y], r);
      BothPlaced(cur, inc, r, x, y, i, j, p, q);
    }
  }

  lemma BothPlaced(cur: seq<Mask>, inc: seq<Mask>, r: seq<Mask>, x: Mask, y: Mask, i: nat, j: nat, p: nat, q: nat)
    requires Distinct(cur) && Distinct(inc) && Embeds(r, cur) && Embeds(r, inc)
    requires i < j < |cur| && p < q < |inc|
    requires x.entry == cur[i].entry == inc[q].entry && y.entry == cur[j].entry == inc[p].entry
    ensures !Embeds([x], r) || !Embeds([y], r)
  {
    hide Embeds;
    if Embeds([x], r) && Embeds([y], r) {
      var a := EntryPlace([x], r, 0);
      var b := EntryPlace([y], r, 0);
      assert x.entry != y.entry;
      hide Distinct;
      if a < b {
        OrderKept(r, inc, a, b, q, p);
      } else {
        OrderKept(r, cur, b, a, j, i);
      }
    }
  }

  /** Without repetitions, the merged list contains every list that both contain, with the registers of
      both, if and only if their common subroutines come in the same order. */
  lemma GreatestIff(cur: seq<Mask>, inc: seq<Mask>)
    requires Distinct(cur) && Distinct(inc)
    ensures Greatest(MergedMasks(cur, inc), cur, inc) <==> SameOrder(cur, inc)
  {
    hide MergedMasks, Embeds;
    var r := MergedMasks(cur, inc);
    if SameOrder(cur, inc) {
      forall t: seq<Mask> | Embeds(t, cur) && Embeds(t, inc)
        ensures Embeds(t, r)
      {
        SameOrderGreatest(cur, inc, t);
      }
    } else {
      hide Distinct, Greatest;
      var i, j, p, q :| 0 <= i < j < |cur| && 0 <= p < q < |inc|
        && cur[i].entry == inc[q].entry && cur[j].entry == inc[p].entry;
      MergedMasksEmbed(cur, inc);
      OtherOrder(cur, inc, r, i, j, p, q);
    }
  }

  /** The search is greedy: it need not find a longest common list, as the source means it to. */
  lemma NotLongest(a: nat, b: nat, c: nat)
    requires a != b && b != c && a != c
    ensures var x, y, z := Mask(a, {}), Mask(b, {}), Mask(c, {});
            MergedMasks([x, y, z], [y, z, x]) == [x] && Embeds([y, z], [x, y, z]) && Embeds([y, z], [y, z, x])
  {
    var x, y, z := Mask(a, {}), Mask(b, {}), Mask(c, {});
    var cur, inc := [x, y, z], [y, z, x];
    assert inc[1..] == [z, x] && [z, x][1..] == [x] && [x][1..] == [];
    assert FindEntry([x], a) == 0;
    assert FindEntry([z, x], a) == 1;
    assert FindEntry(inc, a) == 2;
    assert cur[1..] == [y, z] && [y, z][1..] == [z] && [z][1..] == [];
    assert inc[3..] == [] && FindEntry([], b) == 0 && FindEntry([], c) == 0;
    assert MergedMasks([], []) == [];
    assert MergedMasks([z], []) == [];
    assert MergedMasks([y, z], []) == [];
    assert MergedMasks(cur, inc) == [Mask(a, x.changed + inc[2].changed)] + MergedMasks(cur[1..], inc[3..]);
    assert x.changed + inc[2].changed == {};
    assert MergedMasks(cur, inc) == [x];
    EmbedsSelf([y, z]);
    assert Embeds([y, z], cur);
    assert Embeds([], [x]);
    assert Embeds([z], [z, x]);
    assert Embeds([y, z], inc);
  }
}
