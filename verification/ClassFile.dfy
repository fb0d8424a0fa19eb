/** Writing a preverified class: its constant pool with the entries that stack maps add, and attributes
    whose declared lengths are the numbers of bytes that follow. */
module ClassFile {
  import opened Wrappers

  /** An entry of a pool, at its index. A long or double takes two indices. */
  datatype PoolEntry =
    | Unused | Utf8(text: Str) | ClassAt(utf8: nat) | ClassNamed(name: Str) | StringAt(utf8: nat)
    | Member(kind: nat, cls: nat, nameType: nat) | NameType(name1: nat, descriptor: nat)
    | Number(kind: nat, value: int) | Wide(kind: nat, high: int, low: int) | SecondHalf

  predicate IsText(pool: seq<PoolEntry>, i: nat) {
    0 < i < |pool| && pool[i].Utf8?
  }

  predicate IsClass(pool: seq<PoolEntry>, i: nat) {
    0 < i < |pool| && (pool[i].ClassAt? || pool[i].ClassNamed?)
  }

  predicate EntryOk(pool: seq<PoolEntry>, i: nat)
    requires i < |pool|
  {
    match pool[i]
    case Unused => i == 0
    case ClassAt(utf8) => IsText(pool, utf8)
    case ClassNamed(name) => Utf8(name) in pool
    case StringAt(utf8) => IsText(pool, utf8)
    case Member(_, cls, nt) => IsClass(pool, cls) && 0 < nt < |pool| && pool[nt].NameType?
    case NameType(name, descriptor) => IsText(pool, name) && IsText(pool, descriptor)
    case Wide(_, _, _) => i + 1 < |pool| && pool[i + 1].SecondHalf?
    case SecondHalf => i > 0 && pool[i - 1].Wide?
    case _ => true
  }

  predicate PoolOk(pool: seq<PoolEntry>) {
    pool != [] && pool[0].Unused? && forall i :: 0 <= i < |pool| ==> EntryOk(pool, i)
  }

  // ---------- indices in the new pool ----------

  /** The last index whose entry is not a Utf8. */
  function LastNotUtf8(pool: seq<PoolEntry>, n: nat): (r: nat)
    requires 0 < n <= |pool| && pool[0].Unused?
    ensures r < n && !pool[r].Utf8? && forall i :: r < i < n ==> pool[i].Utf8?
  {
    if !pool[n - 1].Utf8? then n - 1 else LastNotUtf8(pool, n - 1)
  }

  function NewIndex(last: nat, newClasses: nat, i: nat): nat {
    if i > last then i + newClasses else i
  }

  /** The first index with this text, from index `i` on. */
  function FindText(pool: seq<PoolEntry>, s: Str, i: nat): (r: nat)
    requires i <= |pool|
    ensures i <= r <= |pool|
    ensures r < |pool| ==> pool[r] == Utf8(s)
    ensures r == |pool| ==> forall k :: i <= k < |pool| ==> pool[k] != Utf8(s)
    decreases |pool| - i
  {
    if i == |pool| || pool[i] == Utf8(s) then i else FindText(pool, s, i + 1)
  }

  function FindNew(texts: seq<Str>, s: Str): (r: nat)
    ensures r <= |texts| && (r < |texts| ==> texts[r] == s) && (r == |texts| <==> s !in texts)
  {
    if texts == [] || texts[0] == s then 0 else 1 + FindNew(texts[1..], s)
  }

  /** Where the text stands in the new pool, if it is there or next to be added. */
  function TextIndex(pool: seq<PoolEntry>, newTexts: seq<Str>, newClasses: nat, s: Str): nat
    requires PoolOk(pool)
  {
    var i := FindText(pool, s, 0);
    if i < |pool| then NewIndex(LastNotUtf8(pool, |pool|), newClasses, i)
    else |pool| + newClasses + FindNew(newTexts, s)
  }

  predicate HasText(pool: seq<PoolEntry>, newTexts: seq<Str>, s: Str) {
    Utf8(s) in pool || s in newTexts
  }

  // ---------- the new pool ----------

  /** An old entry with its references moved. */
  function Moved(pool: seq<PoolEntry>, newTexts: seq<Str>, newClasses: nat, e: PoolEntry): PoolEntry
    requires PoolOk(pool)
  {
    var last := LastNotUtf8(pool, |pool|);
    match e
    case ClassAt(utf8) => ClassAt(NewIndex(last, newClasses, utf8))
    case ClassNamed(name) => ClassAt(TextIndex(pool, newTexts, newClasses, name))
    case StringAt(utf8) => StringAt(NewIndex(last, newClasses, utf8))
    case NameType(name, descriptor) => NameType(NewIndex(last, newClasses, name),
      NewIndex(last, newClasses, descriptor))
    case _ => e
  }

  /** Old entries up to the last that is not a Utf8, then the new classes, then the remaining old
      Utf8 entries, then the new ones. */
  function NewEntry(pool: seq<PoolEntry>, newTexts: seq<Str>, classes: seq<Str>, i: nat): PoolEntry
    requires PoolOk(pool) && i < |pool| + |classes| + |newTexts|
  {
    var last := LastNotUtf8(pool, |pool|);
    if i <= last then Moved(pool, newTexts, |classes|, pool[i])
    else if i <= last + |classes| then ClassAt(TextIndex(pool, newTexts, |classes|, classes[i - last - 1]))
    else if i < |pool| + |classes| then pool[i - |classes|]
    else Utf8(newTexts[i - |pool| - |classes|])
  }

  function NewPool(pool: seq<PoolEntry>, newTexts: seq<Str>, classes: seq<Str>): (r: seq<PoolEntry>)
    requires PoolOk(pool)
    ensures |r| == |pool| + |classes| + |newTexts|
  {
    seq(|pool| + |classes| + |newTexts|, (i: nat) requires i < |pool| + |classes| + |newTexts| =>
      NewEntry(pool, newTexts, classes, i))
  }

  // ---------- everything still means what it meant ----------

  /** Every text that is looked up stands in the new pool at the index that is returned. */
  lemma TextResolves(pool: seq<PoolEntry>, newTexts: seq<Str>, classes: seq<Str>, s: Str)
    requires PoolOk(pool) && HasText(pool, newTexts, s)
    ensures var i := TextIndex(pool, newTexts, |classes|, s);
            0 < i < |NewPool(pool, newTexts, classes)| && NewPool(pool, newTexts, classes)[i] == Utf8(s)
  {
    var i := FindText(pool, s, 0);
    if i < |pool| {
      TextMoves(pool, newTexts, classes, i);
    } else {
      assert Utf8(s) !in pool;
    }
  }

  /** A Utf8 entry stands at its new index. */
  lemma TextMoves(pool: seq<PoolEntry>, newTexts: seq<Str>, classes: seq<Str>, i: nat)
    requires PoolOk(pool) && IsText(pool, i)
    ensures var n := NewIndex(LastNotUtf8(pool, |pool|), |classes|, i);
            0 < n < |NewPool(pool, newTexts, classes)| && NewPool(pool, newTexts, classes)[n] == pool[i]
  {}

  datatype Meaning = Text(text: Str) | TypeName(name: Str) | Constant(text: Str) | Value(entry: PoolEntry)
    | NameAndType(name: Str, descriptor: Str) | MemberOf(kind: nat, cls: Str, name: Str, descriptor: Str)

  function TextOf(pool: seq<PoolEntry>, i: nat): Str {
    if IsText(pool, i) then pool[i].text else []
  }

  function ClassOf(pool: seq<PoolEntry>, i: nat): Str {
    if !IsClass(pool, i) then [] else if pool[i].ClassNamed? then pool[i].name else TextOf(pool, pool[i].utf8)
  }

  function NameTypeOf(pool: seq<PoolEntry>, i: nat): (Str, Str) {
    if 0 < i < |pool| && pool[i].NameType? then (TextOf(pool, pool[i].name1), TextOf(pool, pool[i].descriptor))
      else ([], [])
  }

  /** What the entry at an index stands for, through all its references. */
  function MeaningOf(pool: seq<PoolEntry>, i: nat): Meaning
    requires i < |pool|
  {
    match pool[i]
    case Utf8(text) => Text(text)
    case ClassAt(_) => TypeName(ClassOf(pool, i))
    case ClassNamed(_) => TypeName(ClassOf(pool, i))
    case StringAt(utf8) => Constant(TextOf(pool, utf8))
    case NameType(_, _) => NameAndType(NameTypeOf(pool, i).0, NameTypeOf(pool, i).1)
    case Member(kind, cls, nt) => MemberOf(kind, ClassOf(pool, cls), NameTypeOf(pool, nt).0, NameTypeOf(pool, nt).1)
    case _ => Value(pool[i])
  }

  lemma ClassKept(pool: seq<PoolEntry>, newTexts: seq<Str>, classes: seq<Str>, i: nat)
    requires PoolOk(pool) && IsClass(pool, i)
    ensures ClassOf(NewPool(pool, newTexts, classes), i) == ClassOf(pool, i)
            && IsClass(NewPool(pool, newTexts, classes), i)
  {
    hide FindText, TextIndex, LastNotUtf8;
    assert EntryOk(pool, i);
    var new_ := NewPool(pool, newTexts, classes);
    assert new_[i] == Moved(pool, newTexts, |classes|, pool[i]);
    if pool[i].ClassAt? {
      TextMoves(pool, newTexts, classes, pool[i].utf8);
    } else {
      TextResolves(pool, newTexts, classes, pool[i].name);
    }
  }

  lemma NameTypeKept(pool: seq<PoolEntry>, newTexts: seq<Str>, classes: seq<Str>, i: nat)
    requires PoolOk(pool) && 0 < i < |pool| && pool[i].NameType?
    ensures NameTypeOf(NewPool(pool, newTexts, classes), i) == NameTypeOf(pool, i)
    ensures i < |NewPool(pool, newTexts, classes)| && NewPool(pool, newTexts, classes)[i].NameType?
  {
    hide FindText, TextIndex, LastNotUtf8;
    assert EntryOk(pool, i);
    var new_ := NewPool(pool, newTexts, classes);
    assert new_[i] == Moved(pool, newTexts, |classes|, pool[i]);
    TextMoves(pool, newTexts, classes, pool[i].name1);
    TextMoves(pool, newTexts, classes, pool[i].descriptor);
  }

  /** Every old entry that is not a Utf8 keeps its index and its meaning. */
  lemma MeaningKept(pool: seq<PoolEntry>, newTexts: seq<Str>, classes: seq<Str>, i: nat)
    requires PoolOk(pool) && i < |pool| && !pool[i].Utf8?
    ensures MeaningOf(NewPool(pool, newTexts, classes), i) == MeaningOf(pool, i)
  {
    hide FindText, TextIndex, LastNotUtf8, ClassOf, NameTypeOf;
    assert EntryOk(pool, i);
    var new_ := NewPool(pool, newTexts, classes);
    assert new_[i] == Moved(pool, newTexts, |classes|, pool[i]);
    match pool[i] {
      case ClassAt(_) => ClassKept(pool, newTexts, classes, i);
      case ClassNamed(_) => ClassKept(pool, newTexts, classes, i);
      case StringAt(utf8) => TextMoves(pool, newTexts, classes, utf8);
      case NameType(_, _) => NameTypeKept(pool, newTexts, classes, i);
      case Member(_, cls, nt) =>
        ClassKept(pool, newTexts, classes, cls);
        NameTypeKept(pool, newTexts, classes, nt);
      case _ =>
    }
  }

  /** The new class entries stand after the last old entry that is not a Utf8, where stack maps expect them. */
  lemma NewClassResolves(pool: seq<PoolEntry>, newTexts: seq<Str>, classes: seq<Str>, j: nat)
    requires PoolOk(pool) && j < |classes| && HasText(pool, newTexts, classes[j])
    ensures var i := LastNotUtf8(pool, |pool|) + 1 + j;
            IsClass(NewPool(pool, newTexts, classes), i) && ClassOf(NewPool(pool, newTexts, classes), i) == classes[j]
  {
    hide FindText, TextIndex, LastNotUtf8;
    TextResolves(pool, newTexts, classes, classes[j]);
  }

  // ---------- writing the pool ----------

  /** The name of the attribute that holds stack maps. */
  const STACK_MAP: Str := [83, 116, 97, 99, 107, 77, 97, 112]

  class PoolWriter {
    const pool: seq<PoolEntry>
    const classes: seq<Str>
    var newTexts: seq<Str>
    /** The entries of the written pool, by index. */
    var written: seq<PoolEntry>
    var count: nat

    constructor (pool: seq<PoolEntry>, classes: seq<Str>)
      ensures this.pool == pool && this.classes == classes && newTexts == [] && written == []
    {
      this.pool, this.classes, newTexts, written, count := pool, classes, [], [], 0;
    }

    /** The index of a text, which is added to the new texts if it is nowhere. */
    method LookupUtf8(utf8: Str) returns (index: nat)
      requires PoolOk(pool)
      modifies `newTexts
      ensures newTexts == if HasText(pool, old(newTexts), utf8) then old(newTexts) else old(newTexts) + [utf8]
      ensures HasText(pool, newTexts, utf8) && index == TextIndex(pool, newTexts, |classes|, utf8)
    {
      hide LastNotUtf8, EntryOk;
      var i := 0;
      while i < |pool|
        invariant i <= |pool| && FindText(pool, utf8, 0) == FindText(pool, utf8, i)
      {
        if pool[i] == Utf8(utf8) {
          var last := GetLastNotUtf8Index();
          return NewIndex(last, |classes|, i);
        }
        i := i + 1;
      }
      assert Utf8(utf8) !in pool;
      var k := 0;
      assert newTexts[0..] == newTexts;
      while k < |newTexts|
        invariant k <= |newTexts| && FindNew(newTexts, utf8) == k + FindNew(newTexts[k..], utf8)
      {
        if newTexts[k] == utf8 {
          return |pool| + |classes| + k;
        }
        assert newTexts[k..][1..] == newTexts[k + 1..];
        k := k + 1;
      }
      FindNewLast(newTexts, utf8);
      newTexts := newTexts + [utf8];
      return |pool| + |classes| + k;
    }

    method GetLastNotUtf8Index() returns (result: nat)
      requires PoolOk(pool)
      ensures result == LastNotUtf8(pool, |pool|)
    {
      hide EntryOk;
      result := 0;
      var i := 1;
      while i < |pool|
        invariant 1 <= i <= |pool| && result == LastNotUtf8(pool, i)
      {
        if !pool[i].Utf8? {
          result := i;
        }
        i := i + 1;
      }
    }

    /** Makes sure that all texts that are needed are there before anything is written. */
    method CollectTexts()
      requires PoolOk(pool)
      modifies `newTexts
      ensures HasText(pool, newTexts, STACK_MAP)
      ensures forall j :: 0 <= j < |classes| ==> HasText(pool, newTexts, classes[j])
      ensures |newTexts| <= |classes| + 1
    {
      newTexts := [];
      var index := LookupUtf8(STACK_MAP);
      var i := 0;
      while i < |classes|
        invariant i <= |classes| && |newTexts| <= i + 1 && HasText(pool, newTexts, STACK_MAP)
        invariant forall j :: 0 <= j < i ==> HasText(pool, newTexts, classes[j])
      {
        index := LookupUtf8(classes[i]);
        i := i + 1;
      }
    }

    method WriteEntry(e: PoolEntry) returns (r: PoolEntry)
      requires PoolOk(pool) && (e.ClassNamed? ==> Utf8(e.name) in pool)
      modifies `newTexts
      ensures newTexts == old(newTexts) && r == Moved(pool, newTexts, |classes|, e)
    {
      hide TextIndex;
      var last := GetLastNotUtf8Index();
      match e {
        case ClassAt(utf8) => return ClassAt(NewIndex(last, |classes|, utf8));
        case StringAt(utf8) => return StringAt(NewIndex(last, |classes|, utf8));
        case ClassNamed(name) =>
          var index := LookupUtf8(name);
          return ClassAt(index);
        case NameType(name, descriptor) =>
          return NameType(NewIndex(last, |classes|, name), NewIndex(last, |classes|, descriptor));
        case _ => return e;
      }
    }

    /** Writes the new class entries after the last old entry that is not a Utf8. */
    method WriteNewClasses()
      requires PoolOk(pool) && |written| == LastNotUtf8(pool, |pool|) + 1
      requires forall j :: 0 <= j < |classes| ==> HasText(pool, newTexts, classes[j])
      requires IsPrefix(written, NewPool(pool, newTexts, classes))
      modifies `newTexts, `written
      ensures newTexts == old(newTexts) && |written| == |old(written)| + |classes|
      ensures IsPrefix(written, NewPool(pool, newTexts, classes))
    {
      hide TextIndex, LastNotUtf8, HasText, PoolOk, IsPrefix;
      ghost var start := |written|;
      var j := 0;
      while j < |classes|
        invariant j <= |classes| && newTexts == old(newTexts) && |written| == start + j
        invariant IsPrefix(written, NewPool(pool, newTexts, classes))
      {
        var index := LookupUtf8(classes[j]);
        PrefixAppend(written, NewPool(pool, newTexts, classes), ClassAt(index));
        written := written + [ClassAt(index)];
        j := j + 1;
      }
    }

    /** Writes the old entries, with the new class entries among them. */
    method WriteOldEntries(last: nat)
      requires PoolOk(pool) && last == LastNotUtf8(pool, |pool|) && (classes != [] ==> last > 0)
      requires forall j :: 0 <= j < |classes| ==> HasText(pool, newTexts, classes[j])
      modifies `newTexts, `written
      ensures newTexts == old(newTexts) && |written| == |pool| + |classes|
      ensures IsPrefix(written, NewPool(pool, newTexts, classes))
    {
      hide TextIndex, LastNotUtf8, HasText, Moved, IsPrefix, NewPool, PoolOk, EntryOk;
      ghost var all := NewPool(pool, newTexts, classes);
      StartPool(pool);
      FirstEntry(pool, newTexts, classes);
      written := [Unused];
      var i := 1;
      while i < |pool|
        invariant 1 <= i <= |pool| && newTexts == old(newTexts) && |written| == NewIndex(last, |classes|, i)
        invariant IsPrefix(written, all)
      {
        EntryAt(pool, newTexts, classes, i);
        var e := WriteEntry(pool[i]);
        PrefixAppend(written, all, e);
        written := written + [e];
        if pool[i].Wide? {
          i := i + 1;
          EntryAt(pool, newTexts, classes, i);
          PrefixAppend(written, all, SecondHalf);
          written := written + [SecondHalf];
        }
        if i == last {
          WriteNewClasses();
        }
        i := i + 1;
      }
    }

    method WriteConstantPool()
      requires PoolOk(pool) && (classes != [] ==> LastNotUtf8(pool, |pool|) > 0)
      modifies this
      ensures written == NewPool(pool, newTexts, classes) && count == |written|
      ensures HasText(pool, newTexts, STACK_MAP)
      ensures forall j :: 0 <= j < |classes| ==> HasText(pool, newTexts, classes[j])
    {
      hide TextIndex, LastNotUtf8, HasText, Moved, NewPool, PoolOk, EntryOk;
      CollectTexts();
      ghost var texts := newTexts;
      var last := GetLastNotUtf8Index();
      count := |pool| + |classes| + |newTexts|;
      WriteOldEntries(last);
      ghost var all := NewPool(pool, newTexts, classes);
      var i := 0;
      while i < |newTexts|
        invariant i <= |newTexts| && newTexts == texts && |written| == |pool| + |classes| + i
        invariant IsPrefix(written, all) && count == |pool| + |classes| + |newTexts|
      {
        TextAt(pool, newTexts, classes, i);
        PrefixAppend(written, all, Utf8(newTexts[i]));
        written := written + [Utf8(newTexts[i])];
        i := i + 1;
      }
    }
  }

  predicate IsPrefix(s: seq<PoolEntry>, all: seq<PoolEntry>) {
    |s| <= |all| && s == all[..|s|]
  }

  lemma PrefixAppend(s: seq<PoolEntry>, all: seq<PoolEntry>, e: PoolEntry)
    requires IsPrefix(s, all) && |s| < |all| && all[|s|] == e
    ensures IsPrefix(s + [e], all)
  {}

  lemma StartPool(pool: seq<PoolEntry>)
    requires PoolOk(pool)
    ensures pool != [] && LastNotUtf8(pool, |pool|) < |pool|
  {}

  lemma FirstEntry(pool: seq<PoolEntry>, newTexts: seq<Str>, classes: seq<Str>)
    requires PoolOk(pool)
    ensures IsPrefix([Unused], NewPool(pool, newTexts, classes))
  {
    assert NewPool(pool, newTexts, classes)[0] == Moved(pool, newTexts, |classes|, pool[0]);
  }

  /** What the new pool holds where an old entry goes. */
  lemma EntryAt(pool: seq<PoolEntry>, newTexts: seq<Str>, classes: seq<Str>, i: nat)
    requires PoolOk(pool) && i < |pool|
    ensures var n := NewIndex(LastNotUtf8(pool, |pool|), |classes|, i);
            n < |NewPool(pool, newTexts, classes)|
            && NewPool(pool, newTexts, classes)[n] == Moved(pool, newTexts, |classes|, pool[i])
    ensures !pool[i].Utf8? ==> i <= LastNotUtf8(pool, |pool|)
    ensures pool[i].Wide? ==> i + 1 < |pool| && pool[i + 1].SecondHalf? && i + 1 <= LastNotUtf8(pool, |pool|)
    ensures pool[i].ClassNamed? ==> Utf8(pool[i].name) in pool
    ensures pool[i].SecondHalf? ==> Moved(pool, newTexts, |classes|, pool[i]) == SecondHalf
  {
    hide TextIndex;
    assert EntryOk(pool, i);
  }

  lemma TextAt(pool: seq<PoolEntry>, newTexts: seq<Str>, classes: seq<Str>, k: nat)
    requires PoolOk(pool) && k < |newTexts|
    ensures |NewPool(pool, newTexts, classes)| == |pool| + |classes| + |newTexts|
    ensures NewPool(pool, newTexts, classes)[|pool| + |classes| + k] == Utf8(newTexts[k])
  {
    hide TextIndex;
  }

  lemma FindNewLast(texts: seq<Str>, s: Str)
    requires s !in texts
    ensures FindNew(texts + [s], s) == |texts|
  {
    if texts != [] {
      assert (texts + [s])[1..] == texts[1..] + [s];
      FindNewLast(texts[1..], s);
    }
  }
}
