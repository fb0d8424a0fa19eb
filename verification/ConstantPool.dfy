/** The class generator's constant pool: equal constants share an entry, and entries stay where they are. */
module ConstantPool {
  import opened Wrappers

  /** An entry refers to others by their indices, which start at 1. */
  datatype Entry =
    | Utf8(text: Str) | Integer(value: int) | Class(name: nat) | String(utf8: nat)
    | Fieldref(cls: nat, nameType: nat) | Methodref(cls: nat, nameType: nat) | NameAndType(name: nat, descriptor: nat)

  /** What a constant means, whatever its place. */
  datatype Constant =
    | TextConstant(text: Str) | IntConstant(value: int) | ClassConstant(name: Str) | StringConstant(text: Str)
    | FieldConstant(cls: Str, name: Str, descriptor: Str) | MethodConstant(cls: Str, name: Str, descriptor: Str)
    | NameTypeConstant(name: Str, descriptor: Str)

  const MAX_ENTRIES: nat := 65535

  // ---------- pools ----------

  predicate IsUtf8(pool: seq<Entry>, index: nat, before: nat) {
    1 <= index <= before <= |pool| && pool[index - 1].Utf8?
  }

  predicate IsClass(pool: seq<Entry>, index: nat, before: nat) {
    1 <= index <= before <= |pool| && pool[index - 1].Class?
  }

  predicate IsNameType(pool: seq<Entry>, index: nat, before: nat) {
    1 <= index <= before <= |pool| && pool[index - 1].NameAndType?
  }

  /** The entry refers to earlier entries of the right kinds. */
  predicate RefersBack(pool: seq<Entry>, e: Entry, before: nat) {
    match e
    case Utf8(_) => true
    case Integer(_) => true
    case Class(name) => IsUtf8(pool, name, before)
    case String(utf8) => IsUtf8(pool, utf8, before)
    case Fieldref(cls, nameType) => IsClass(pool, cls, before) && IsNameType(pool, nameType, before)
    case Methodref(cls, nameType) => IsClass(pool, cls, before) && IsNameType(pool, nameType, before)
    case NameAndType(name, descriptor) => IsUtf8(pool, name, before) && IsUtf8(pool, descriptor, before)
  }

  ghost predicate PoolOk(pool: seq<Entry>) {
    && |pool| <= MAX_ENTRIES
    && (forall i :: 0 <= i < |pool| ==> RefersBack(pool, pool[i], i))
    && forall i, j :: 0 <= i < j < |pool| ==> pool[i] != pool[j]
  }

  function Text(pool: seq<Entry>, index: nat): Str {
    if 1 <= index <= |pool| && pool[index - 1].Utf8? then pool[index - 1].text else []
  }

  function ClassName(pool: seq<Entry>, index: nat): Str {
    if 1 <= index <= |pool| && pool[index - 1].Class? then Text(pool, pool[index - 1].name) else []
  }

  function Meaning(pool: seq<Entry>, e: Entry): Constant {
    match e
    case Utf8(text) => TextConstant(text)
    case Integer(value) => IntConstant(value)
    case Class(name) => ClassConstant(Text(pool, name))
    case String(utf8) => StringConstant(Text(pool, utf8))
    case Fieldref(cls, nt) => FieldConstant(ClassName(pool, cls), MemberName(pool, nt), MemberType(pool, nt))
    case Methodref(cls, nt) => MethodConstant(ClassName(pool, cls), MemberName(pool, nt), MemberType(pool, nt))
    case NameAndType(name, descriptor) => NameTypeConstant(Text(pool, name), Text(pool, descriptor))
  }

  function MemberName(pool: seq<Entry>, index: nat): Str {
    if 1 <= index <= |pool| && pool[index - 1].NameAndType? then Text(pool, pool[index - 1].name) else []
  }

  function MemberType(pool: seq<Entry>, index: nat): Str {
    if 1 <= index <= |pool| && pool[index - 1].NameAndType? then Text(pool, pool[index - 1].descriptor) else []
  }

  /** What index `index` stands for. */
  predicate Denotes(pool: seq<Entry>, index: nat, c: Constant) {
    1 <= index <= |pool| && Meaning(pool, pool[index - 1]) == c
  }

  // ---------- different indices mean different constants ----------

  lemma SameText(pool: seq<Entry>, i: nat, j: nat)
    requires PoolOk(pool) && IsUtf8(pool, i, |pool|) && IsUtf8(pool, j, |pool|) && Text(pool, i) == Text(pool, j)
    ensures i == j
  {}

  lemma SameClass(pool: seq<Entry>, i: nat, j: nat)
    requires PoolOk(pool) && IsClass(pool, i, |pool|) && IsClass(pool, j, |pool|)
             && ClassName(pool, i) == ClassName(pool, j)
    ensures i == j
  {
    SameText(pool, pool[i - 1].name, pool[j - 1].name);
  }

  lemma SameNameType(pool: seq<Entry>, i: nat, j: nat)
    requires PoolOk(pool) && IsNameType(pool, i, |pool|) && IsNameType(pool, j, |pool|)
    requires MemberName(pool, i) == MemberName(pool, j) && MemberType(pool, i) == MemberType(pool, j)
    ensures i == j
  {
    SameText(pool, pool[i - 1].name, pool[j - 1].name);
    SameText(pool, pool[i - 1].descriptor, pool[j - 1].descriptor);
  }

  /** Two indices that mean the same constant are the same index. */
  lemma MeaningUnique(pool: seq<Entry>, i: nat, j: nat, c: Constant)
    requires PoolOk(pool) && Denotes(pool, i, c) && Denotes(pool, j, c)
    ensures i == j
  {
    hide RefersBack, Meaning;
    assert RefersBack(pool, pool[i - 1], i - 1) && RefersBack(pool, pool[j - 1], j - 1);
    RefersLater(pool, pool[i - 1], i - 1);
    RefersLater(pool, pool[j - 1], j - 1);
    SameEntry(pool, pool[i - 1], pool[j - 1]);
  }

  lemma SameEntry(pool: seq<Entry>, d: Entry, e: Entry)
    requires PoolOk(pool) && RefersBack(pool, d, |pool|) && RefersBack(pool, e, |pool|)
             && Meaning(pool, d) == Meaning(pool, e)
    ensures d == e
  {
    hide PoolOk;
    match d {
      case Class(name) => SameText(pool, name, e.name);
      case String(utf8) => SameText(pool, utf8, e.utf8);
      case Fieldref(cls, nt) =>
        SameClass(pool, cls, e.cls);
        SameNameType(pool, nt, e.nameType);
      case Methodref(cls, nt) =>
        SameClass(pool, cls, e.cls);
        SameNameType(pool, nt, e.nameType);
      case NameAndType(name, descriptor) =>
        SameText(pool, name, e.name);
        SameText(pool, descriptor, e.descriptor);
      case _ =>
    }
  }

  lemma RefersLater(pool: seq<Entry>, e: Entry, before: nat)
    requires RefersBack(pool, e, before) && before <= |pool|
    ensures RefersBack(pool, e, |pool|)
  {}

  /** Entries keep their meaning as the pool grows. */
  lemma MeaningKept(pool: seq<Entry>, more: seq<Entry>, index: nat, c: Constant)
    requires PoolOk(pool) && pool <= more && Denotes(pool, index, c)
    ensures Denotes(more, index, c)
  {
    RefersLater(pool, pool[index - 1], index - 1);
    MeaningGrows(pool, more, pool[index - 1]);
  }

  lemma MeaningGrows(pool: seq<Entry>, more: seq<Entry>, e: Entry)
    requires PoolOk(pool) && pool <= more && RefersBack(pool, e, |pool|)
    ensures Meaning(more, e) == Meaning(pool, e)
  {}

  lemma PoolAppend(pool: seq<Entry>, e: Entry)
    requires PoolOk(pool) && |pool| < MAX_ENTRIES && RefersBack(pool, e, |pool|) && e !in pool
    ensures PoolOk(pool + [e])
  {
    forall i | 0 <= i <= |pool|
      ensures RefersBack(pool + [e], (pool + [e])[i], i)
    {
      assert i < |pool| ==> RefersBack(pool, pool[i], i);
    }
  }

  /** Some index means this constant. */
  ghost predicate Present(pool: seq<Entry>, c: Constant) {
    exists i: nat :: Denotes(pool, i, c)
  }

  /** A constant is present as soon as the entry for it is. */
  lemma PresentEntry(pool: seq<Entry>, e: Entry)
    requires PoolOk(pool) && RefersBack(pool, e, |pool|)
    ensures Present(pool, Meaning(pool, e)) <==> e in pool
  {
    if e in pool {
      var i :| 0 <= i < |pool| && pool[i] == e;
      assert Denotes(pool, i + 1, Meaning(pool, e));
    }
    if Present(pool, Meaning(pool, e)) {
      var i: nat :| Denotes(pool, i, Meaning(pool, e));
      assert RefersBack(pool, pool[i - 1], i - 1);
      RefersLater(pool, pool[i - 1], i - 1);
      SameEntry(pool, pool[i - 1], e);
    }
  }

  /** With a constant come the constants that it is made of. */
  lemma PresentParts(pool: seq<Entry>, c: Constant)
    requires PoolOk(pool) && Present(pool, c)
    ensures c.ClassConstant? ==> Present(pool, TextConstant(c.name))
    ensures c.StringConstant? ==> Present(pool, TextConstant(c.text))
    ensures c.NameTypeConstant? ==> Present(pool, TextConstant(c.name)) && Present(pool, TextConstant(c.descriptor))
    ensures c.FieldConstant? || c.MethodConstant? ==>
              Present(pool, ClassConstant(c.cls)) && Present(pool, NameTypeConstant(c.name, c.descriptor))
  {
    var i: nat :| Denotes(pool, i, c);
    var e := pool[i - 1];
    assert RefersBack(pool, e, i - 1);
    hide PoolOk, Present;
    match e {
      case Class(name) => DenotesPresent(pool, name, TextConstant(c.name));
      case String(utf8) => DenotesPresent(pool, utf8, TextConstant(c.text));
      case NameAndType(name, descriptor) =>
        DenotesPresent(pool, name, TextConstant(c.name));
        DenotesPresent(pool, descriptor, TextConstant(c.descriptor));
      case Fieldref(cls, nt) =>
        DenotesPresent(pool, cls, ClassConstant(c.cls));
        DenotesPresent(pool, nt, NameTypeConstant(c.name, c.descriptor));
      case Methodref(cls, nt) =>
        DenotesPresent(pool, cls, ClassConstant(c.cls));
        DenotesPresent(pool, nt, NameTypeConstant(c.name, c.descriptor));
      case _ =>
    }
  }

  lemma DenotesPresent(pool: seq<Entry>, i: nat, c: Constant)
    requires Denotes(pool, i, c)
    ensures Present(pool, c)
  {}

  // ---------- the pool in place ----------

  /** The pool after a constant has been asked for: unchanged if it was present, and otherwise longer;
      the index means the constant. */
  ghost predicate Interned(before: seq<Entry>, after: seq<Entry>, index: nat, c: Constant, most: nat) {
    && PoolOk(after) && before <= after && |after| <= |before| + most && Denotes(after, index, c)
    && (Present(before, c) ==> after == before)
  }

  class Constants {
    var constants: seq<Entry>

    constructor ()
      ensures constants == []
    {
      constants := [];
    }

    /** The index of an entry, which is added if there is none. */
    method Intern(e: Entry) returns (index: nat)
      requires PoolOk(constants) && |constants| < MAX_ENTRIES && RefersBack(constants, e, |constants|)
      modifies this
      ensures Interned(old(constants), constants, index, Meaning(old(constants), e), 1)
    {
      hide RefersBack, Meaning;
      PresentEntry(constants, e);
      var i := 0;
      while i < |constants|
        invariant i <= |constants| && constants == old(constants) && e !in constants[..i]
      {
        if constants[i] == e {
          return i + 1;
        }
        assert constants[..i + 1] == constants[..i] + [constants[i]];
        i := i + 1;
      }
      assert constants[..|constants|] == constants;
      PoolAppend(constants, e);
      MeaningGrows(constants, constants + [e], e);
      constants := constants + [e];
      index := |constants|;
    }

    method AddUtf8(str: Str) returns (index: nat)
      requires PoolOk(constants) && |constants| < MAX_ENTRIES
      modifies this
      ensures Interned(old(constants), constants, index, TextConstant(str), 1) && IsUtf8(constants, index, |constants|)
    {
      index := Intern(Utf8(str));
      hide PoolOk, RefersBack, Present;
    }

    method AddInteger(data: int) returns (index: nat)
      requires PoolOk(constants) && |constants| < MAX_ENTRIES
      modifies this
      ensures Interned(old(constants), constants, index, IntConstant(data), 1)
    {
      index := Intern(Integer(data));
    }

    method AddString(str: Str) returns (index: nat)
      requires PoolOk(constants) && |constants| + 2 <= MAX_ENTRIES
      modifies this
      ensures Interned(old(constants), constants, index, StringConstant(str), 2)
    {
      hide PoolOk;
      PartsPresent(constants, StringConstant(str));
      var utf8Const := AddUtf8(str);
      index := Intern(String(utf8Const));
    }

    method AddClass(className: Str) returns (index: nat)
      requires PoolOk(constants) && |constants| + 2 <= MAX_ENTRIES
      modifies this
      ensures Interned(old(constants), constants, index, ClassConstant(className), 2)
              && IsClass(constants, index, |constants|)
    {
      hide PoolOk;
      PartsPresent(constants, ClassConstant(className));
      var utf8Const := AddUtf8(className);
      index := Intern(Class(utf8Const));
    }

    method AddNameAndType(name: Str, descriptor: Str) returns (index: nat)
      requires PoolOk(constants) && |constants| + 3 <= MAX_ENTRIES
      modifies this
      ensures Interned(old(constants), constants, index, NameTypeConstant(name, descriptor), 3)
      ensures IsNameType(constants, index, |constants|)
    {
      hide PoolOk;
      PartsPresent(constants, NameTypeConstant(name, descriptor));
      var nameIndex := AddUtf8(name);
      ghost var one := constants;
      var typeIndex := AddUtf8(descriptor);
      MeaningKept(one, constants, nameIndex, TextConstant(name));
      index := Intern(NameAndType(nameIndex, typeIndex));
    }

    /** The class, and the name and type, that a member reference is made of. */
    method AddParts(className: Str, name: Str, descriptor: Str, ghost c: Constant)
        returns (classIndex: nat, nameTypeIndex: nat)
      requires PoolOk(constants) && |constants| + 5 <= MAX_ENTRIES
      requires c == FieldConstant(className, name, descriptor) || c == MethodConstant(className, name, descriptor)
      modifies this
      ensures PoolOk(constants) && old(constants) <= constants && |constants| <= |old(constants)| + 5
      ensures IsClass(constants, classIndex, |constants|) && IsNameType(constants, nameTypeIndex, |constants|)
      ensures ClassName(constants, classIndex) == className
      ensures MemberName(constants, nameTypeIndex) == name && MemberType(constants, nameTypeIndex) == descriptor
      ensures Present(old(constants), c) ==> constants == old(constants)
    {
      hide PoolOk;
      PartsPresent(constants, c);
      classIndex := AddClass(className);
      ghost var mid := constants;
      nameTypeIndex := AddNameAndType(name, descriptor);
      MeaningKept(mid, constants, classIndex, ClassConstant(className));
    }

    method AddFieldref(className: Str, name: Str, descriptor: Str) returns (index: nat)
      requires PoolOk(constants) && |constants| + 6 <= MAX_ENTRIES
      modifies this
      ensures Interned(old(constants), constants, index, FieldConstant(className, name, descriptor), 6)
    {
      hide PoolOk, ClassName, MemberName, MemberType;
      var cls, nt := AddParts(className, name, descriptor, FieldConstant(className, name, descriptor));
      index := Intern(Fieldref(cls, nt));
    }

    method AddMethodref(className: Str, name: Str, descriptor: Str) returns (index: nat)
      requires PoolOk(constants) && |constants| + 6 <= MAX_ENTRIES
      modifies this
      ensures Interned(old(constants), constants, index, MethodConstant(className, name, descriptor), 6)
    {
      hide PoolOk, ClassName, MemberName, MemberType;
      var cls, nt := AddParts(className, name, descriptor, MethodConstant(className, name, descriptor));
      index := Intern(Methodref(cls, nt));
    }
  }

  /** A constant that is present has all its parts. */
  lemma PartsPresent(pool: seq<Entry>, c: Constant)
    requires PoolOk(pool)
    ensures Present(pool, c) ==>
              (c.ClassConstant? ==> Present(pool, TextConstant(c.name)))
              && (c.StringConstant? ==> Present(pool, TextConstant(c.text)))
              && (c.NameTypeConstant? ==>
                    Present(pool, TextConstant(c.name)) && Present(pool, TextConstant(c.descriptor)))
              && (c.FieldConstant? || c.MethodConstant? ==>
                    Present(pool, ClassConstant(c.cls)) && Present(pool, NameTypeConstant(c.name, c.descriptor)))
  {
    if Present(pool, c) {
      PresentParts(pool, c);
    }
  }

  // ---------- writing and reading ----------

  /** A loaded entry: its type and its text, or the two or four bytes that follow the type. */
  datatype Loaded = LoadedText(text: Str) | LoadedShort(kind: nat, value: nat) | LoadedInt(kind: nat, value: nat)

  const UTF8: nat := 1
  const INTEGER: nat := 3
  const CLASS: nat := 7
  const STRING: nat := 8
  const FIELDREF: nat := 9
  const METHODREF: nat := 10
  const NAME_AND_TYPE: nat := 12
  const MAX_LOADED: nat := 16384

  /** The low 16 bits of a number, high byte first. */
  function Short(v: int): (r: seq<int>)
    ensures |r| == 2
  {
    [v / 256 % 256, v % 256]
  }

  /** The low 32 bits of a number, high byte first. */
  function Long(v: int): (r: seq<int>)
    ensures |r| == 4
  {
    Short(v / 0x1_0000) + Short(v)
  }

  function Written(e: Entry): seq<int> {
    match e
    case Utf8(text) => [UTF8] + Short(|text|) + text
    case Integer(value) => [INTEGER] + Long(value)
    case Class(name) => [CLASS] + Short(name)
    case String(utf8) => [STRING] + Short(utf8)
    case Fieldref(cls, nt) => [FIELDREF] + Short(cls) + Short(nt)
    case Methodref(cls, nt) => [METHODREF] + Short(cls) + Short(nt)
    case NameAndType(name, descriptor) => [NAME_AND_TYPE] + Short(name) + Short(descriptor)
  }

  /** How the loader sees an entry. */
  function Seen(e: Entry): Loaded {
    match e
    case Utf8(text) => LoadedText(text)
    case Integer(value) => LoadedInt(INTEGER, value % 0x1_0000_0000)
    case Class(name) => LoadedShort(CLASS, name)
    case String(utf8) => LoadedShort(STRING, utf8)
    case Fieldref(cls, nt) => LoadedInt(FIELDREF, cls * 0x1_0000 + nt)
    case Methodref(cls, nt) => LoadedInt(METHODREF, cls * 0x1_0000 + nt)
    case NameAndType(name, descriptor) => LoadedInt(NAME_AND_TYPE, name * 0x1_0000 + descriptor)
  }

  function AllWritten(pool: seq<Entry>): seq<int> {
    if pool == [] then [] else Written(pool[0]) + AllWritten(pool[1..])
  }

  /** The count is one more than the number of entries. */
  function PoolBytes(pool: seq<Entry>): seq<int> {
    Short(|pool| + 1) + AllWritten(pool)
  }

  function AllSeen(pool: seq<Entry>): (r: seq<Loaded>)
    ensures |r| == |pool| && forall i :: 0 <= i < |pool| ==> r[i] == Seen(pool[i])
  {
    if pool == [] then [] else [Seen(pool[0])] + AllSeen(pool[1..])
  }

  predicate Writable(e: Entry) {
    match e
    case Utf8(text) => |text| <= 65535
    case Integer(value) => -0x8000_0000 <= value < 0x8000_0000
    case Class(name) => name <= 65535
    case String(utf8) => utf8 <= 65535
    case Fieldref(cls, nt) => cls <= 65535 && nt <= 65535
    case Methodref(cls, nt) => cls <= 65535 && nt <= 65535
    case NameAndType(name, descriptor) => name <= 65535 && descriptor <= 65535
  }

  /** Different entries are seen differently. */
  lemma SeenUnique(d: Entry, e: Entry)
    requires Writable(d) && Writable(e) && Seen(d) == Seen(e)
    ensures d == e
  {}

  /** The tag of each kind of entry, and what follows it: numbers with their high bytes first. */
  lemma EntryFormat(e: Entry)
    requires Writable(e)
    ensures var w := Written(e);
            match e
            case Utf8(text) => |w| == 3 + |text| && w[0] == 1 && 256 * w[1] + w[2] == |text| && w[3..] == text
            case Integer(value) =>
              |w| == 5 && w[0] == 3
              && 0x100_0000 * w[1] + 0x1_0000 * w[2] + 256 * w[3] + w[4] == value % 0x1_0000_0000
            case Class(name) => |w| == 3 && w[0] == 7 && 256 * w[1] + w[2] == name
            case String(utf8) => |w| == 3 && w[0] == 8 && 256 * w[1] + w[2] == utf8
            case Fieldref(cls, nt) => |w| == 5 && w[0] == 9 && 256 * w[1] + w[2] == cls && 256 * w[3] + w[4] == nt
            case Methodref(cls, nt) => |w| == 5 && w[0] == 10 && 256 * w[1] + w[2] == cls && 256 * w[3] + w[4] == nt
            case NameAndType(name, descriptor) =>
              |w| == 5 && w[0] == 12 && 256 * w[1] + w[2] == name && 256 * w[3] + w[4] == descriptor
  {
    match e {
      case Utf8(text) => ShortDigits(|text|);
      case Integer(value) => LongDigits(value);
      case Class(name) => ShortDigits(name);
      case String(utf8) => ShortDigits(utf8);
      case Fieldref(cls, nt) => PairDigits(cls, nt);
      case Methodref(cls, nt) => PairDigits(cls, nt);
      case NameAndType(name, descriptor) => PairDigits(name, descriptor);
    }
    hide Short, Long;
  }

  lemma ShortDigits(v: nat)
    requires v <= 65535
    ensures 256 * Short(v)[0] + Short(v)[1] == v
  {}

  lemma PairDigits(v: nat, w: nat)
    requires v <= 65535 && w <= 65535
    ensures 256 * Short(v)[0] + Short(v)[1] == v && 256 * Short(w)[0] + Short(w)[1] == w
  {}

  lemma LongDigits(v: int)
    ensures 0x100_0000 * Long(v)[0] + 0x1_0000 * Long(v)[1] + 256 * Long(v)[2] + Long(v)[3] == v % 0x1_0000_0000
  {
    ShortValue(v / 0x1_0000);
    ShortValue(v);
    LongValue(v);
  }

  /** The pool begins with one more than the number of its entries. */
  lemma PoolCount(pool: seq<Entry>)
    requires |pool| < 65535
    ensures 256 * PoolBytes(pool)[0] + PoolBytes(pool)[1] == |pool| + 1 && PoolBytes(pool)[2..] == AllWritten(pool)
  {
    ShortDigits(|pool| + 1);
    hide Short, AllWritten;
  }

  method WriteConstantPool(pool: seq<Entry>) returns (bytes: seq<int>)
    ensures bytes == PoolBytes(pool)
  {
    hide Written;
    bytes := Short(|pool| + 1);
    var i := 0;
    assert pool[0..] == pool;
    while i < |pool|
      invariant i <= |pool| && bytes + AllWritten(pool[i..]) == PoolBytes(pool)
    {
      assert pool[i..][1..] == pool[i + 1..];
      assert bytes + (Written(pool[i]) + AllWritten(pool[i + 1..]))
             == bytes + Written(pool[i]) + AllWritten(pool[i + 1..]);
      bytes := bytes + Written(pool[i]);
      i := i + 1;
    }
  }

  // ---------- the loader ----------

  /** The bytes of a class file and the place of the next one. */
  class Loader {
    const bytes: seq<int>
    var ptr: nat

    constructor (bytes: seq<int>)
      ensures this.bytes == bytes && ptr == 0
    {
      this.bytes, ptr := bytes, 0;
    }

    /** The bytes from place `p` on begin with these. */
    predicate Ahead(p: nat, s: seq<int>) {
      p + |s| <= |bytes| && bytes[p..p + |s|] == s
    }

    lemma AheadParts(p: nat, a: seq<int>, b: seq<int>)
      requires Ahead(p, a + b)
      ensures Ahead(p, a) && Ahead(p + |a|, b)
    {
      assert bytes[p..p + |a|] == bytes[p..p + |a + b|][..|a|];
      assert bytes[p + |a|..p + |a| + |b|] == bytes[p..p + |a + b|][|a|..];
    }

    method Get1byte(ghost v: int) returns (r: int)
      requires Ahead(ptr, [v])
      modifies `ptr
      ensures ptr == old(ptr) + 1 && r == v
    {
      assert bytes[ptr..ptr + 1][0] == bytes[ptr];
      r := bytes[ptr];
      ptr := ptr + 1;
    }

    method Get2bytes(ghost v: int) returns (r: nat)
      requires Ahead(ptr, Short(v))
      modifies `ptr
      ensures ptr == old(ptr) + 2 && r == v % 0x1_0000
    {
      assert bytes[ptr..ptr + 2][0] == bytes[ptr] && bytes[ptr..ptr + 2][1] == bytes[ptr + 1];
      r := bytes[ptr] * 256 + bytes[ptr + 1];
      ptr := ptr + 2;
      ShortValue(v);
    }

    method Get4bytes(ghost v: int) returns (r: nat)
      requires Ahead(ptr, Long(v))
      modifies `ptr
      ensures ptr == old(ptr) + 4 && r == v % 0x1_0000_0000
    {
      AheadParts(ptr, Short(v / 0x1_0000), Short(v));
      hide Short;
      var high := Get2bytes(v / 0x1_0000);
      var low := Get2bytes(v);
      r := high * 0x1_0000 + low;
      LongValue(v);
    }

    /** Reads one entry. */
    method LoadEntry(ghost e: Entry) returns (r: Loaded)
      requires Writable(e) && Ahead(ptr, Written(e))
      modifies `ptr
      ensures r == Seen(e) && ptr == old(ptr) + |Written(e)|
    {
      WrittenIs(e);
      SeenIs(e);
      hide Short, Long, Written, Seen, FourBytes, Writable;
      AheadParts(ptr, [Kind(e)], Payload(e));
      var kind := Get1byte(Kind(e));
      if kind == UTF8 {
        AheadParts(ptr, Short(|e.text|), e.text);
        var length := Get2bytes(|e.text|);
        r := LoadedText(bytes[ptr..ptr + length]);
        ptr := ptr + length;
      } else if kind == CLASS || kind == STRING {
        var v := Get2bytes(if e.Class? then e.name else e.utf8);
        r := LoadedShort(kind, v);
      } else {
        var v := Get4bytes(FourBytes(e));
        r := LoadedInt(kind, v);
      }
    }

    /** Reads back exactly what was written; None if there are more entries than the loader takes. */
    method LoadConstantPool(ghost pool: seq<Entry>) returns (r: Option<seq<Loaded>>)
      requires Ahead(ptr, PoolBytes(pool)) && |pool| < MAX_ENTRIES
      requires forall i :: 0 <= i < |pool| ==> Writable(pool[i])
      modifies `ptr
      ensures r == None <==> |pool| + 1 > 16384
      ensures r != None ==> r.value == AllSeen(pool) && ptr == old(ptr) + |PoolBytes(pool)|
    {
      hide Short, Written, Seen;
      AheadParts(ptr, Short(|pool| + 1), AllWritten(pool));
      var nconstants := Get2bytes(|pool| + 1);
      if nconstants > MAX_LOADED {
        return None;
      }
      ghost var end := ptr + |AllWritten(pool)|;
      var entries: seq<Loaded> := [];
      assert pool[0..] == pool;
      var i := 1;
      while i < nconstants
        invariant 1 <= i <= nconstants && |entries| == i - 1
        invariant forall k :: 0 <= k < |entries| ==> entries[k] == Seen(pool[k])
        invariant Ahead(ptr, AllWritten(pool[i - 1..])) && ptr + |AllWritten(pool[i - 1..])| == end
      {
        ghost var rest := pool[i - 1..];
        assert rest[0] == pool[i - 1] && rest[1..] == pool[i..];
        AheadParts(ptr, Written(pool[i - 1]), AllWritten(pool[i..]));
        var e := LoadEntry(pool[i - 1]);
        entries := entries + [e];
        i := i + 1;
      }
      assert entries == AllSeen(pool);
      r := Some(entries);
    }
  }

  function Kind(e: Entry): nat {
    match e
    case Utf8(_) => UTF8
    case Integer(_) => INTEGER
    case Class(_) => CLASS
    case String(_) => STRING
    case Fieldref(_, _) => FIELDREF
    case Methodref(_, _) => METHODREF
    case NameAndType(_, _) => NAME_AND_TYPE
  }

  /** The four bytes of an entry as a number. */
  function FourBytes(e: Entry): int {
    match e
    case Integer(value) => value
    case Fieldref(cls, nt) => cls * 0x1_0000 + nt
    case Methodref(cls, nt) => cls * 0x1_0000 + nt
    case NameAndType(name, descriptor) => name * 0x1_0000 + descriptor
    case _ => 0
  }

  /** What follows the type of an entry. */
  function Payload(e: Entry): seq<int> {
    match e
    case Utf8(text) => Short(|text|) + text
    case Class(name) => Short(name)
    case String(utf8) => Short(utf8)
    case _ => Long(FourBytes(e))
  }

  lemma WrittenIs(e: Entry)
    requires Writable(e)
    ensures Written(e) == [Kind(e)] + Payload(e)
  {
    match e {
      case Fieldref(cls, nt) => LongOfTwo(cls, nt);
      case Methodref(cls, nt) => LongOfTwo(cls, nt);
      case NameAndType(name, descriptor) => LongOfTwo(name, descriptor);
      case _ =>
    }
    hide Short, Long;
  }

  /** What the loader makes of the bytes that follow a type. */
  lemma SeenIs(e: Entry)
    requires Writable(e)
    ensures Seen(e) ==
            if e.Utf8? then LoadedText(e.text)
            else if e.Class? || e.String? then LoadedShort(Kind(e), (if e.Class? then e.name else e.utf8) % 0x1_0000)
            else LoadedInt(Kind(e), FourBytes(e) % 0x1_0000_0000)
    ensures e.Utf8? ==> |e.text| % 0x1_0000 == |e.text|
  {
    match e {
      case Utf8(text) => Small(|text|);
      case Class(name) => Small(name);
      case String(utf8) => Small(utf8);
      case Fieldref(cls, nt) => SmallPair(cls, nt);
      case Methodref(cls, nt) => SmallPair(cls, nt);
      case NameAndType(name, descriptor) => SmallPair(name, descriptor);
      case _ =>
    }
  }

  lemma Small(v: nat)
    ensures v <= 65535 ==> v % 0x1_0000 == v
  {}

  lemma SmallPair(high: nat, low: nat)
    ensures high <= 65535 && low <= 65535 ==>
              (high * 0x1_0000 + low) % 0x1_0000_0000 == high * 0x1_0000 + low
  {}

  lemma LongOfTwo(high: nat, low: nat)
    requires high <= 65535 && low <= 65535
    ensures Long(high * 0x1_0000 + low) == Short(high) + Short(low)
  {
    var v := high * 0x1_0000 + low;
    assert v / 0x1_0000 == high;
    LowShort(high, low);
  }

  lemma LowShort(high: nat, low: nat)
    requires low <= 65535
    ensures Short(high * 0x1_0000 + low) == Short(low)
  {
    assert (high * 0x1_0000 + low) / 256 == high * 256 + low / 256;
  }

  lemma ShortValue(v: int)
    ensures v / 256 % 256 * 256 + v % 256 == v % 0x1_0000
  {}

  lemma LongValue(v: int)
    ensures v / 0x1_0000 % 0x1_0000 * 0x1_0000 + v % 0x1_0000 == v % 0x1_0000_0000
  {}
}
