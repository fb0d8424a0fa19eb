/** The symbol file of a compiled unit: types and names written as bytes and read back. */
module SymbolFile {
  import opened Wrappers

  const ARRAY_TYPE: nat := 7
  const RECORD_TYPE: nat := 8
  const INTERVAL_TYPE: nat := 9

  datatype Type =
    | Simple(cls: nat)
    | Array(element: Type, dimensions: seq<Type>)
    | Record(names: seq<Str>, types: seq<Type>, id: int)
    | Interval(base: nat, first: int, last: int)

  // ---------- bytes ----------

  /** The low byte of a number, as it is written. */
  function Byte(v: int): (b: nat)
    ensures b < 256
  {
    v % 256
  }

  /** A byte read into a signed char. */
  function SignedChar(b: int): int {
    if b >= 128 then b - 256 else b
  }

  /** The low four bytes of a number, lowest first. */
  function Bytes4(v: int): (s: seq<int>)
    ensures |s| == 4
  {
    [v % 256, v / 256 % 256, v / 256 / 256 % 256, v / 256 / 256 / 256 % 256]
  }

  /** Four bytes read into an int. */
  function Int4(s: seq<int>): int
    requires |s| >= 4
  {
    var u := s[0] + 0x100 * s[1] + 0x1_0000 * s[2] + 0x100_0000 * s[3];
    if u >= 0x8000_0000 then u - 0x1_0000_0000 else u
  }

  predicate FitsInt(v: int) {
    -0x8000_0000 <= v < 0x8000_0000
  }

  /** Four bytes hold a number exactly if it is an int. */
  lemma Int4Bytes4(v: int)
    ensures Int4(Bytes4(v)) == v <==> FitsInt(v)
  {
    var q1 := v / 256;
    var q2 := q1 / 256;
    var q3 := q2 / 256;
    var q4 := q3 / 256;
    assert v == Bytes4(v)[0] + 256 * (Bytes4(v)[1] + 256 * (Bytes4(v)[2] + 256 * (Bytes4(v)[3] + 256 * q4)));
  }

  lemma CharByte(n: nat)
    ensures SignedChar(Byte(n)) == n <==> n <= 127
  {}

  // ---------- names ----------

  function LowerChar(c: int): int {
    if 65 <= c <= 90 then c + 32 else c
  }

  /** Names lose their case when they are written. */
  function Lower(s: Str): (r: Str)
    ensures |r| == |s|
  {
    seq(|s|, (i: nat) requires i < |s| => LowerChar(s[i]))
  }

  /** The length of a name as a signed char. */
  function CharLength(s: Str): (n: int)
    ensures n <= |s| && (n == |s| <==> |s| <= 127)
  {
    CharByte(|s|);
    SignedChar(Byte(|s|))
  }

  /** A long name is cut to the length that is written. What is written after a negative length is not
      determined; here it is nothing. */
  function EncodeStr(s: Str): seq<int> {
    [Byte(|s|)] + if CharLength(s) >= 0 then Lower(s)[..CharLength(s)] else []
  }

  /** A name, if its length is not negative and all of it is there. */
  function ParseStr(s: seq<int>): (r: Option<(Str, seq<int>)>)
    ensures r.Some? ==> |r.value.1| < |s|
  {
    if s == [] then None
    else
      var n := SignedChar(s[0]);
      if 0 <= n <= |s| - 1 then Some((s[1..1 + n], s[1 + n..])) else None
  }

  lemma ParseEncodeStr(s: Str, rest: seq<int>)
    requires |s| <= 127
    ensures ParseStr(EncodeStr(s) + rest) == Some((Lower(s), rest))
  {
    CharByte(|s|);
    assert Lower(s)[..|s|] == Lower(s);
    var b := EncodeStr(s) + rest;
    assert b[1..1 + |s|] == Lower(s);
    assert b[1 + |s|..] == rest;
  }

  /** A longer name does not read back, whatever follows its length. */
  lemma ParseLongStr(s: Str, after: seq<int>)
    requires |s| > 127
    ensures var r := ParseStr([Byte(|s|)] + after); r.None? || |r.value.0| != |s|
  {
    assert SignedChar(Byte(|s|)) == CharLength(s) != |s|;
    hide CharLength;
  }

  lemma EncodeStrStarts(s: Str, rest: seq<int>)
    ensures EncodeStr(s) + rest == [Byte(|s|)] + ((if CharLength(s) >= 0 then Lower(s)[..CharLength(s)] else []) + rest)
  {
    hide Lower, CharLength, Byte;
  }

  /** What is read back is the name itself exactly if it had no upper-case letter. */
  lemma LowerIsIdentity(s: Str)
    ensures Lower(s) == s <==> forall i :: 0 <= i < |s| ==> !(65 <= s[i] <= 90)
  {
    if Lower(s) == s {
      forall i | 0 <= i < |s|
        ensures !(65 <= s[i] <= 90)
      {
        assert Lower(s)[i] == s[i];
      }
    }
  }

  /** Two cases of one letter, or one character: 32 is what separates the cases. */
  predicate SameLetter(c: int, d: int) {
    c == d || (65 <= c <= 90 && d == c + 32) || (65 <= d <= 90 && c == d + 32)
  }

  /** Names that differ in the case of their letters only. */
  predicate SameName(a: Str, b: Str) {
    |a| == |b| && forall i :: 0 <= i < |a| ==> SameLetter(a[i], b[i])
  }

  /** Lower-casing forgets the case of letters and nothing else. */
  lemma LowerForgetsCase(a: Str, b: Str)
    ensures Lower(a) == Lower(b) <==> SameName(a, b)
    ensures forall i :: 0 <= i < |a| ==> Lower(a)[i] == a[i] + (if 65 <= a[i] <= 90 then 32 else 0)
    ensures Lower(Lower(a)) == Lower(a)
  {
    if Lower(a) == Lower(b) {
      assert |a| == |Lower(a)| == |b|;
      forall i | 0 <= i < |a|
        ensures SameLetter(a[i], b[i])
      {
        assert Lower(a)[i] == Lower(b)[i];
      }
    }
  }

  /** The bytes of a name: its length as a signed char, and so many characters, with exactly the
      capitals raised by 32. */
  lemma StrBytes(s: Str)
    requires |s| <= 127
    ensures |EncodeStr(s)| == |s| + 1 && EncodeStr(s)[0] == |s|
    ensures forall i :: 0 <= i < |s| ==> EncodeStr(s)[1 + i] == s[i] + (if 65 <= s[i] <= 90 then 32 else 0)
  {
    CharByte(|s|);
    LowerForgetsCase(s, s);
    hide Lower, LowerChar;
  }

  // ---------- types ----------

  /** The type classes that are written as a single byte. */
  predicate PlainClass(cls: nat) {
    cls < 128 && cls != ARRAY_TYPE && cls != RECORD_TYPE && cls != INTERVAL_TYPE
  }

  predicate Formed(t: Type)
  {
    match t
    case Simple(cls) => PlainClass(cls)
    case Array(element, dimensions) => Formed(element) && forall i :: 0 <= i < |dimensions| ==> Formed(dimensions[i])
    case Record(names, types, _) =>
      |names| == |types| && forall i :: 0 <= i < |types| ==> Formed(types[i])
    case Interval(base, _, _) => base < 128
  }

  function Parts(t: Type): nat {
    match t
    case Array(_, dimensions) => |dimensions| + 1
    case Record(names, _, _) => |names| + 1
    case _ => 0
  }

  function Encode(t: Type): seq<int>
    requires Formed(t)
    decreases t, Parts(t)
  {
    match t
    case Simple(cls) => [cls]
    case Array(element, dimensions) => [ARRAY_TYPE] + Encode(element) + [Byte(|dimensions|)]
      + EncodeAll(t, |dimensions|)
    case Record(names, types, id) => [RECORD_TYPE, Byte(|names|)] + EncodeFields(t, |names|) + Bytes4(id)
    case Interval(base, first, last) => [INTERVAL_TYPE, base] + Bytes4(first) + Bytes4(last)
  }

  /** The first byte says what a type is: 7 for an array, 8 for a record and 9 for an interval. */
  lemma FirstByte(t: Type)
    requires Formed(t)
    ensures Encode(t) != []
    ensures Encode(t)[0] == match t case Simple(cls) => cls case Array(_, _) => 7 case Record(_, _, _) => 8
                            case Interval(_, _, _) => 9
    ensures t.Simple? ==> t.cls != 7 && t.cls != 8 && t.cls != 9
  {}

  /** An array of a one-byte type over an interval, as it is written. */
  lemma ArrayBytes(cls: nat)
    requires PlainClass(cls)
    ensures var t := Array(Simple(cls), [Interval(2, 1, 258)]);
            Formed(t) && Encode(t) == [7, cls, 1, 9, 2, 1, 0, 0, 0, 2, 1, 0, 0]
  {
    var e, d := Simple(cls), Interval(2, 1, 258);
    var t := Array(e, [d]);
    assert Formed(e) && Formed(d);
    assert Encode(e) == [cls];
    assert Encode(d) == [9, 2, 1, 0, 0, 0, 2, 1, 0, 0];
    assert EncodeAll(t, 0) == [];
    hide Bytes4;
    assert EncodeAll(t, 1) == Encode(d) + EncodeAll(t, 0);
    assert Encode(t) == [7] + Encode(e) + [1] + EncodeAll(t, 1);
  }

  /** A record with one field, as it is written. */
  lemma RecordBytes(cls: nat, letter: int)
    requires PlainClass(cls) && 97 <= letter <= 122
    ensures var t := Record([[letter]], [Simple(cls)], 5);
            Formed(t) && Encode(t) == [8, 1, 1, letter, cls, 5, 0, 0, 0]
  {
    var e := Simple(cls);
    var t := Record([[letter]], [e], 5);
    assert Formed(e);
    assert Encode(e) == [cls] && EncodeStr([letter]) == [1, letter] && Bytes4(5) == [5, 0, 0, 0];
    hide EncodeStr, Bytes4;
    assert EncodeFields(t, 1) == EncodeStr([letter]) + Encode(e) + EncodeFields(t, 0);
  }

  /** The last `n` dimensions of an array. */
  function EncodeAll(t: Type, n: nat): seq<int>
    requires t.Array? && Formed(t) && n <= |t.dimensions|
    decreases t, n
  {
    if n == 0 then [] else Encode(t.dimensions[|t.dimensions| - n]) + EncodeAll(t, n - 1)
  }

  /** The last `n` fields of a record. */
  function EncodeFields(t: Type, n: nat): seq<int>
    requires t.Record? && Formed(t) && n <= |t.names|
    decreases t, n
  {
    if n == 0 then []
    else EncodeStr(t.names[|t.names| - n]) + Encode(t.types[|t.names| - n]) + EncodeFields(t, n - 1)
  }

  /** The type with its names in lower case. */
  function Lowered(t: Type): Type
    decreases t
  {
    match t
    case Simple(cls) => t
    case Array(element, dimensions) =>
      Array(Lowered(element), seq(|dimensions|, (i: nat) requires i < |dimensions| => Lowered(dimensions[i])))
    case Record(names, types, id) =>
      Record(seq(|names|, (i: nat) requires i < |names| => Lower(names[i])),
             seq(|types|, (i: nat) requires i < |types| => Lowered(types[i])), id)
    case Interval(_, _, _) => t
  }

  // ---------- reading ----------

  /** The type at the beginning of `s` and what follows it; None if `s` ends too early. */
  function Parse(s: seq<int>): (r: Option<(Type, seq<int>)>)
    ensures r.Some? ==> |r.value.1| < |s|
    decreases |s|, 0
  {
    if s == [] then None
    else if s[0] == ARRAY_TYPE then
      var e := Parse(s[1..]);
      if e.None? || e.value.1 == [] then None
      else
        var ds := ParseAll(e.value.1[1..], SignedChar(e.value.1[0]));
        if ds.None? then None else Some((Array(e.value.0, ds.value.0), ds.value.1))
    else if s[0] == RECORD_TYPE then
      if |s| < 2 then None
      else
        var fs := ParseFields(s[2..], SignedChar(s[1]));
        if fs.None? || |fs.value.2| < 4 then None
        else Some((Record(fs.value.0, fs.value.1, Int4(fs.value.2)), fs.value.2[4..]))
    else if s[0] == INTERVAL_TYPE then
      if |s| < 10 || !(0 <= s[1] < 128) then None
      else Some((Interval(s[1], Int4(s[2..6]), Int4(s[6..10])), s[10..]))
    else if 0 <= s[0] < 128 then Some((Simple(s[0]), s[1..]))
    else None
  }

  function ParseAll(s: seq<int>, n: int): (r: Option<(seq<Type>, seq<int>)>)
    ensures r.Some? ==> |r.value.1| <= |s| && |r.value.0| == if n > 0 then n else 0
    decreases |s|, 1
  {
    if n <= 0 then Some(([], s))
    else
      var t := Parse(s);
      if t.None? then None
      else
        var ts := ParseAll(t.value.1, n - 1);
        if ts.None? then None else Some(([t.value.0] + ts.value.0, ts.value.1))
  }

  function ParseFields(s: seq<int>, n: int): (r: Option<(seq<Str>, seq<Type>, seq<int>)>)
    ensures r.Some? ==> |r.value.2| <= |s| && |r.value.0| == |r.value.1| == if n > 0 then n else 0
    decreases |s|, 1
  {
    if n <= 0 then Some(([], [], s))
    else
      var name := ParseStr(s);
      if name.None? then None
      else
        var t := Parse(name.value.1);
        if t.None? then None
        else
          var fs := ParseFields(t.value.1, n - 1);
          if fs.None? then None
          else Some(([name.value.0] + fs.value.0, [t.value.0] + fs.value.1, fs.value.2))
  }

  // ---------- the round trip ----------

  /** The last `n` types of a list fit. */
  predicate AllFit(ts: seq<Type>, n: nat)
    requires n <= |ts|
  {
    forall i :: |ts| - n <= i < |ts| ==> Fits(ts[i])
  }

  /** The last `n` names of a list are short enough. */
  predicate AllShort(names: seq<Str>, n: nat)
    requires n <= |names|
  {
    forall i :: |names| - n <= i < |names| ==> |names[i]| <= 127
  }

  /** All lengths, counts and numbers are small enough for the bytes they are written in. */
  predicate Fits(t: Type)
    decreases t
  {
    match t
    case Simple(_) => true
    case Array(element, dimensions) =>
      Fits(element) && |dimensions| <= 127 && forall i :: 0 <= i < |dimensions| ==> Fits(dimensions[i])
    case Record(names, types, id) =>
      |names| <= 127 && FitsInt(id) && AllShort(names, |names|) && forall i :: 0 <= i < |types| ==> Fits(types[i])
    case Interval(_, first, last) => FitsInt(first) && FitsInt(last)
  }

  // Parsing, one production at a time.

  lemma ParseArray(s: seq<int>, b: int, tail: seq<int>, rest: seq<int>, e: Type, ds: seq<Type>)
    requires Parse(s) == Some((e, [b] + tail)) && ParseAll(tail, SignedChar(b)) == Some((ds, rest))
    ensures Parse([ARRAY_TYPE] + s) == Some((Array(e, ds), rest))
  {
    hide SignedChar, ParseAll;
    assert ([ARRAY_TYPE] + s)[1..] == s;
    assert ([b] + tail)[1..] == tail;
  }

  lemma ParseRecord(b: int, tail: seq<int>, rest: seq<int>, names: seq<Str>, types: seq<Type>, id: int)
    requires ParseFields(tail, SignedChar(b)) == Some((names, types, Bytes4(id) + rest))
    ensures Parse([RECORD_TYPE, b] + tail) == Some((Record(names, types, Int4(Bytes4(id))), rest))
  {
    hide SignedChar, ParseFields, Int4, Bytes4;
    assert ([RECORD_TYPE, b] + tail)[2..] == tail;
    Int4Prefix(id, rest);
  }

  lemma ParseInterval(base: nat, first: int, last: int, rest: seq<int>)
    requires base < 128
    ensures Parse([INTERVAL_TYPE, base] + Bytes4(first) + Bytes4(last) + rest)
         == Some((Interval(base, Int4(Bytes4(first)), Int4(Bytes4(last))), rest))
  {
    hide Int4, Bytes4;
    var s := [INTERVAL_TYPE, base] + Bytes4(first) + Bytes4(last) + rest;
    assert s[2..6] == Bytes4(first) && s[6..10] == Bytes4(last) && s[10..] == rest;
  }

  lemma ParseAllStep(s: seq<int>, mid: seq<int>, rest: seq<int>, n: int, t: Type, ts: seq<Type>)
    requires n > 0 && Parse(s) == Some((t, mid)) && ParseAll(mid, n - 1) == Some((ts, rest))
    ensures ParseAll(s, n) == Some(([t] + ts, rest))
  {
    hide Parse;
  }

  lemma ParseFieldsStep(s: seq<int>, s1: seq<int>, s2: seq<int>, rest: seq<int>, n: int, name: Str, t: Type,
                        names: seq<Str>, ts: seq<Type>)
    requires n > 0 && ParseStr(s) == Some((name, s1)) && Parse(s1) == Some((t, s2))
    requires ParseFields(s2, n - 1) == Some((names, ts, rest))
    ensures ParseFields(s, n) == Some(([name] + names, [t] + ts, rest))
  {
    hide Parse, ParseStr;
  }

  lemma EncodeArray(t: Type, rest: seq<int>)
    requires t.Array? && Formed(t)
    ensures Encode(t) + rest
         == [ARRAY_TYPE] + (Encode(t.element) + ([Byte(|t.dimensions|)] + (EncodeAll(t, |t.dimensions|) + rest)))
  {
    hide EncodeAll;
  }

  lemma EncodeRecord(t: Type, rest: seq<int>)
    requires t.Record? && Formed(t)
    ensures Encode(t) + rest == [RECORD_TYPE, Byte(|t.names|)] + (EncodeFields(t, |t.names|) + (Bytes4(t.id) + rest))
  {
    hide EncodeFields, Bytes4;
  }

  lemma EncodeAllStep(t: Type, n: nat, rest: seq<int>)
    requires t.Array? && Formed(t) && 0 < n <= |t.dimensions|
    ensures EncodeAll(t, n) + rest == Encode(t.dimensions[|t.dimensions| - n]) + (EncodeAll(t, n - 1) + rest)
  {
    hide Encode;
  }

  lemma EncodeFieldsStep(t: Type, n: nat, rest: seq<int>)
    requires t.Record? && Formed(t) && 0 < n <= |t.names|
    ensures EncodeFields(t, n) + rest
         == EncodeStr(t.names[|t.names| - n]) + (Encode(t.types[|t.names| - n]) + (EncodeFields(t, n - 1) + rest))
  {
    hide Encode, EncodeStr;
  }

  lemma LoweredParts(t: Type)
    ensures t.Array? ==> Lowered(t) == Array(Lowered(t.element), LoweredAll(t.dimensions, |t.dimensions|))
    ensures t.Record? ==> Lowered(t) == Record(LowerAll(t.names, |t.names|), LoweredAll(t.types, |t.types|), t.id)
  {
    match t {
      case Array(element, dimensions) => assert Lowered(t).dimensions == LoweredAll(dimensions, |dimensions|);
      case Record(names, types, _) =>
        assert Lowered(t).names == LowerAll(names, |names|) && Lowered(t).types == LoweredAll(types, |types|);
      case _ =>
    }
  }

  /** Reading what was written gives the type with its names in lower case, and leaves what follows. */
  lemma {:induction false} ParseEncode(t: Type, rest: seq<int>)
    requires Formed(t) && Fits(t)
    ensures Parse(Encode(t) + rest) == Some((Lowered(t), rest))
    decreases t, Parts(t)
  {
    LoweredParts(t);
    match t {
      case Simple(cls) => ParseSimple(cls, rest);
      case Array(element, dimensions) =>
        hide Parse, ParseAll, Encode, EncodeAll, Lowered, LoweredAll, SignedChar, Byte;
        CharByte(|dimensions|);
        var tail := EncodeAll(t, |dimensions|) + rest;
        ParseEncode(element, [Byte(|dimensions|)] + tail);
        ParseEncodeAll(t, |dimensions|, rest);
        EncodeArray(t, rest);
        ParseArray(Encode(element) + ([Byte(|dimensions|)] + tail), Byte(|dimensions|), tail, rest, Lowered(element),
                   LoweredAll(dimensions, |dimensions|));
      case Record(names, types, id) =>
        hide Parse, ParseFields, Encode, EncodeFields, Lowered, LoweredAll, LowerAll, SignedChar, Byte, Int4, Bytes4;
        CharByte(|names|);
        Int4Bytes4(id);
        var tail := EncodeFields(t, |names|) + (Bytes4(id) + rest);
        ParseEncodeFields(t, |names|, Bytes4(id) + rest);
        EncodeRecord(t, rest);
        ParseRecord(Byte(|names|), tail, rest, LowerAll(names, |names|), LoweredAll(types, |types|), id);
      case Interval(base, first, last) =>
        hide Parse, Int4, Bytes4;
        ParseInterval(base, first, last, rest);
        Int4Bytes4(first);
        Int4Bytes4(last);
    }
  }

  lemma ParseSimple(cls: nat, rest: seq<int>)
    requires PlainClass(cls)
    ensures Parse([cls] + rest) == Some((Simple(cls), rest))
  {
    assert ([cls] + rest)[1..] == rest;
  }

  lemma Int4Prefix(v: int, rest: seq<int>)
    ensures Int4(Bytes4(v) + rest) == Int4(Bytes4(v)) && (Bytes4(v) + rest)[4..] == rest
    ensures Int4(Bytes4(v)) == v <==> FitsInt(v)
  {
    hide Bytes4;
    Int4Bytes4(v);
  }

  /** The last `n` types of a list, with their names in lower case. */
  function LoweredAll(ts: seq<Type>, n: nat): (r: seq<Type>)
    requires n <= |ts|
    ensures |r| == n
  {
    seq(n, (i: nat) requires i < n => Lowered(ts[|ts| - n + i]))
  }

  function LowerAll(names: seq<Str>, n: nat): (r: seq<Str>)
    requires n <= |names|
    ensures |r| == n
  {
    seq(n, (i: nat) requires i < n => Lower(names[|names| - n + i]))
  }

  lemma {:induction false} ParseEncodeAll(t: Type, n: nat, rest: seq<int>)
    requires t.Array? && Formed(t) && n <= |t.dimensions| && AllFit(t.dimensions, n)
    ensures ParseAll(EncodeAll(t, n) + rest, n) == Some((LoweredAll(t.dimensions, n), rest))
    decreases t, n
  {
    hide Parse, ParseAll, Encode, EncodeAll, Lowered, LoweredAll;
    if n == 0 {
      NothingLeft(t, rest);
    } else {
      var d := t.dimensions[|t.dimensions| - n];
      var tail := EncodeAll(t, n - 1) + rest;
      ParseEncode(d, tail);
      ParseEncodeAll(t, n - 1, rest);
      EncodeAllStep(t, n, rest);
      ParseAllStep(Encode(d) + tail, tail, rest, n, Lowered(d), LoweredAll(t.dimensions, n - 1));
      LoweredStep(t.dimensions, n);
    }
  }

  lemma NothingLeft(t: Type, rest: seq<int>)
    requires Formed(t)
    ensures t.Array? ==> EncodeAll(t, 0) + rest == rest && LoweredAll(t.dimensions, 0) == []
    ensures t.Record? ==>
              EncodeFields(t, 0) + rest == rest && LoweredAll(t.types, 0) == [] && LowerAll(t.names, 0) == []
    ensures ParseAll(rest, 0) == Some(([], rest)) && ParseFields(rest, 0) == Some(([], [], rest))
  {}

  lemma LoweredStep(ts: seq<Type>, n: nat)
    requires 0 < n <= |ts|
    ensures LoweredAll(ts, n) == [Lowered(ts[|ts| - n])] + LoweredAll(ts, n - 1)
  {
    hide Lowered;
  }

  lemma LowerStep(names: seq<Str>, n: nat)
    requires 0 < n <= |names|
    ensures LowerAll(names, n) == [Lower(names[|names| - n])] + LowerAll(names, n - 1)
  {
    hide Lower;
  }

  lemma {:induction false} ParseEncodeFields(t: Type, n: nat, rest: seq<int>)
    requires t.Record? && Formed(t) && n <= |t.names| && AllFit(t.types, n) && AllShort(t.names, n)
    ensures ParseFields(EncodeFields(t, n) + rest, n) == Some((LowerAll(t.names, n), LoweredAll(t.types, n), rest))
    decreases t, n
  {
    hide Parse, ParseFields, ParseStr, Encode, EncodeFields, EncodeStr, Lowered, Lower, LoweredAll, LowerAll;
    if n == 0 {
      NothingLeft(t, rest);
    } else {
      var k := |t.names| - n;
      var tail := EncodeFields(t, n - 1) + rest;
      var s1 := Encode(t.types[k]) + tail;
      ParseEncodeStr(t.names[k], s1);
      ParseEncode(t.types[k], tail);
      ParseEncodeFields(t, n - 1, rest);
      EncodeFieldsStep(t, n, rest);
      ParseFieldsStep(EncodeStr(t.names[k]) + s1, s1, tail, rest, n, Lower(t.names[k]), Lowered(t.types[k]),
                      LowerAll(t.names, n - 1), LoweredAll(t.types, n - 1));
      LoweredStep(t.types, n);
      LowerStep(t.names, n);
    }
  }

  // ---------- what does not fit ----------

  /** A type that does not fit is not read back: a count or a number comes out different. */
  lemma {:induction false} ParseUnfit(t: Type, rest: seq<int>)
    requires Formed(t) && !Fits(t)
    ensures var r := Parse(Encode(t) + rest); r.None? || r.value.0 != Lowered(t)
    decreases t, 1
  {
    LoweredParts(t);
    match t {
      case Simple(_) =>
      case Array(element, dimensions) => ParseUnfitArray(t, rest);
      case Record(names, types, id) => ParseUnfitRecord(t, rest);
      case Interval(base, first, last) =>
        hide Parse, Int4, Bytes4;
        ParseInterval(base, first, last, rest);
        Int4Bytes4(first);
        Int4Bytes4(last);
    }
  }

  lemma {:induction false} ParseUnfitArray(t: Type, rest: seq<int>)
    requires t.Array? && Formed(t) && !Fits(t)
    ensures var r := Parse(Encode(t) + rest); r.None? || r.value.0 != Lowered(t)
    decreases t, 0, 1
  {
    hide Encode, EncodeAll, Lowered, LoweredAll, SignedChar, Byte, ParseAll;
    var n := |t.dimensions|;
    CharByte(n);
    LoweredParts(t);
    EncodeArray(t, rest);
    var tail := EncodeAll(t, n) + rest;
    var s := Encode(t.element) + ([Byte(n)] + tail);
    assert ([ARRAY_TYPE] + s)[1..] == s;
    if !Fits(t.element) {
      ParseUnfit(t.element, [Byte(n)] + tail);
    } else {
      ParseEncode(t.element, [Byte(n)] + tail);
      assert ([Byte(n)] + tail)[1..] == tail;
      if n <= 127 {
        ParseUnfitAll(t, n, rest);
      }
    }
  }

  lemma {:induction false} ParseUnfitAll(t: Type, n: nat, rest: seq<int>)
    requires t.Array? && Formed(t) && n <= |t.dimensions| && !AllFit(t.dimensions, n)
    ensures var r := ParseAll(EncodeAll(t, n) + rest, n); r.None? || r.value.0 != LoweredAll(t.dimensions, n)
    decreases t, 0, 0, n
  {
    hide Parse, Encode, EncodeAll, Lowered, LoweredAll;
    var d := t.dimensions[|t.dimensions| - n];
    var tail := EncodeAll(t, n - 1) + rest;
    EncodeAllStep(t, n, rest);
    LoweredStep(t.dimensions, n);
    ConsDiffer<Type>();
    if !Fits(d) {
      ParseUnfit(d, tail);
    } else {
      ParseEncode(d, tail);
      ParseUnfitAll(t, n - 1, rest);
    }
  }

  lemma {:induction false} ParseUnfitRecord(t: Type, rest: seq<int>)
    requires t.Record? && Formed(t) && !Fits(t)
    ensures var r := Parse(Encode(t) + rest); r.None? || r.value.0 != Lowered(t)
    decreases t, 0, 1
  {
    hide Encode, EncodeFields, Lowered, LoweredAll, LowerAll, SignedChar, Byte, Int4, Bytes4, ParseFields;
    var n := |t.names|;
    CharByte(n);
    LoweredParts(t);
    Int4Prefix(t.id, rest);
    EncodeRecord(t, rest);
    var tail := EncodeFields(t, n) + (Bytes4(t.id) + rest);
    assert ([RECORD_TYPE, Byte(n)] + tail)[2..] == tail;
    if n <= 127 {
      if AllFit(t.types, n) && AllShort(t.names, n) {
        ParseEncodeFields(t, n, Bytes4(t.id) + rest);
      } else {
        ParseUnfitFields(t, n, Bytes4(t.id) + rest);
      }
    }
  }

  lemma {:induction false} ParseUnfitFields(t: Type, n: nat, rest: seq<int>)
    requires t.Record? && Formed(t) && n <= |t.names| && !(AllFit(t.types, n) && AllShort(t.names, n))
    ensures var r := ParseFields(EncodeFields(t, n) + rest, n);
            r.None? || r.value.0 != LowerAll(t.names, n) || r.value.1 != LoweredAll(t.types, n)
    decreases t, 0, 0, n
  {
    hide Parse, ParseStr, ParseFields, Encode, EncodeStr, EncodeFields, Lowered, LoweredAll, Lower, LowerAll;
    var k := |t.names| - n;
    if |t.names[k]| > 127 {
      ParseLongField(t, n, rest);
    } else {
      var tail := EncodeFields(t, n - 1) + rest;
      if !Fits(t.types[k]) {
        ParseUnfit(t.types[k], tail);
      } else {
        ParseEncode(t.types[k], tail);
        ParseUnfitFields(t, n - 1, rest);
      }
      FieldDiffers(t, n, rest);
    }
  }

  /** A difference in a field of short name, or in one of those behind it, is one in the list. */
  lemma FieldDiffers(t: Type, n: nat, rest: seq<int>)
    requires t.Record? && Formed(t) && 0 < n <= |t.names| && |t.names[|t.names| - n]| <= 127
    requires var tail := EncodeFields(t, n - 1) + rest;
             var r, fs := Parse(Encode(t.types[|t.names| - n]) + tail), ParseFields(tail, n - 1);
             || r.None? || r.value.0 != Lowered(t.types[|t.names| - n])
             || (r.value.1 == tail
                 && (fs.None? || fs.value.0 != LowerAll(t.names, n - 1) || fs.value.1 != LoweredAll(t.types, n - 1)))
    ensures var r := ParseFields(EncodeFields(t, n) + rest, n);
            r.None? || r.value.0 != LowerAll(t.names, n) || r.value.1 != LoweredAll(t.types, n)
  {
    hide Parse, ParseStr, Encode, EncodeStr, EncodeFields, Lowered, LoweredAll, Lower, LowerAll;
    var k := |t.names| - n;
    var tail := EncodeFields(t, n - 1) + rest;
    ParseEncodeStr(t.names[k], Encode(t.types[k]) + tail);
    EncodeFieldsStep(t, n, rest);
    LoweredStep(t.types, n);
    LowerStep(t.names, n);
    var r := Parse(Encode(t.types[k]) + tail);
    if r.Some? {
      var fs := ParseFields(r.value.1, n - 1);
      if fs.Some? {
        ConsSame(r.value.0, fs.value.1, Lowered(t.types[k]), LoweredAll(t.types, n - 1));
        ConsSame(Lower(t.names[k]), fs.value.0, Lower(t.names[k]), LowerAll(t.names, n - 1));
      }
    }
  }

  lemma ConsSame<T>(x: T, a: seq<T>, y: T, b: seq<T>)
    ensures [x] + a == [y] + b <==> x == y && a == b
  {
    assert ([x] + a)[0] == x && ([x] + a)[1..] == a && ([y] + b)[0] == y && ([y] + b)[1..] == b;
  }

  lemma ParseLongField(t: Type, n: nat, rest: seq<int>)
    requires t.Record? && Formed(t) && 0 < n <= |t.names| && |t.names[|t.names| - n]| > 127
    ensures var r := ParseFields(EncodeFields(t, n) + rest, n); r.None? || r.value.0 != LowerAll(t.names, n)
  {
    hide Parse, ParseStr, Encode, EncodeStr, EncodeFields, Lower, LowerAll;
    var k := |t.names| - n;
    var after := Encode(t.types[k]) + (EncodeFields(t, n - 1) + rest);
    EncodeFieldsStep(t, n, rest);
    LowerStep(t.names, n);
    EncodeStrStarts(t.names[k], after);
    ParseLongStr(t.names[k], (if CharLength(t.names[k]) >= 0 then Lower(t.names[k])[..CharLength(t.names[k])]
      else []) + after);
    ConsDiffer<Str>();
  }

  lemma ConsDiffer<T>()
    ensures forall x: T, a: seq<T>, y: T, b: seq<T> {:trigger [x] + a, [y] + b} :: [x] + a == [y] + b ==>
            x == y && a == b
  {
    forall x: T, a: seq<T>, y: T, b: seq<T> | [x] + a == [y] + b
      ensures x == y && a == b
    {
      assert ([x] + a)[0] == x && ([x] + a)[1..] == a;
      assert ([y] + b)[0] == y && ([y] + b)[1..] == b;
    }
  }

  /** A type is read back, up to the case of its names, exactly if it fits. */
  lemma RoundTripIffFits(t: Type, rest: seq<int>)
    requires Formed(t)
    ensures Fits(t) <==> Parse(Encode(t) + rest) == Some((Lowered(t), rest))
  {
    hide Parse, Encode, Lowered;
    if Fits(t) {
      ParseEncode(t, rest);
    } else {
      ParseUnfit(t, rest);
    }
  }

  /** An interval up to 2^31 reads back as one up to -2^31. */
  lemma LargeBound(rest: seq<int>)
    ensures var t := Interval(0, 0, 0x8000_0000);
            Formed(t) && !Fits(t) && Parse(Encode(t) + rest) == Some((Interval(0, 0, -0x8000_0000), rest))
  {
    var t := Interval(0, 0, 0x8000_0000);
    assert Encode(t) + rest == [INTERVAL_TYPE, 0] + Bytes4(0) + Bytes4(0x8000_0000) + rest;
    ParseInterval(0, 0, 0x8000_0000, rest);
  }

  // ---------- the file ----------

  class File {
    var bytes: seq<int>
    var pos: nat

    method WriteByte(b: int)
      modifies `bytes
      ensures bytes == old(bytes) + [b]
    {
      bytes := bytes + [b];
    }

    method WriteString(value: Str)
      modifies `bytes
      ensures bytes == old(bytes) + EncodeStr(value)
      ensures |value| <= 127 ==>
                |bytes| == |old(bytes)| + 1 + |value| && bytes[|old(bytes)|] == |value|
                && forall i :: 0 <= i < |value| ==>
                     bytes[|old(bytes)| + 1 + i] == value[i] + (if 65 <= value[i] <= 90 then 32 else 0)
    {
      if |value| <= 127 {
        StrBytes(value);
      }
      bytes := bytes + [Byte(|value|)];
      var len := SignedChar(Byte(|value|));
      if len >= 0 {
        bytes := bytes + Lower(value)[..len];
      }
    }

    method WriteType(t: Type)
      requires Formed(t)
      modifies `bytes
      ensures bytes == old(bytes) + Encode(t)
      decreases t, 1
    {
      hide Byte, Bytes4, EncodeAll, EncodeFields, EncodeStr, Formed;
      match t {
        case Simple(cls) => WriteByte(cls);
        case Array(element, dimensions) =>
          FormedParts(t);
          WriteByte(ARRAY_TYPE);
          WriteType(element);
          WriteByte(Byte(|dimensions|));
          WriteDimensions(t);
        case Record(names, types, id) =>
          WriteByte(RECORD_TYPE);
          WriteByte(Byte(|names|));
          WriteFields(t);
          bytes := bytes + Bytes4(id);
        case Interval(base, first, last) =>
          WriteByte(INTERVAL_TYPE);
          WriteByte(base);
          bytes := bytes + Bytes4(first);
          bytes := bytes + Bytes4(last);
      }
    }

    method WriteDimensions(t: Type)
      requires t.Array? && Formed(t)
      modifies `bytes
      ensures bytes == old(bytes) + EncodeAll(t, |t.dimensions|)
      decreases t, 0
    {
      hide Encode, EncodeAll, Formed;
      FormedParts(t);
      var n, k := |t.dimensions|, 0;
      while k < n
        invariant k <= n && bytes + EncodeAll(t, n - k) == old(bytes) + EncodeAll(t, n)
      {
        EncodeAllIs(t, n - k);
        ghost var here := bytes;
        WriteType(t.dimensions[k]);
        assert here + (Encode(t.dimensions[k]) + EncodeAll(t, n - k - 1)) == bytes + EncodeAll(t, n - k - 1);
        k := k + 1;
      }
      EncodeAllIs(t, 0);
    }

    method WriteFields(t: Type)
      requires t.Record? && Formed(t)
      modifies `bytes
      ensures bytes == old(bytes) + EncodeFields(t, |t.names|)
      decreases t, 0
    {
      hide Encode, EncodeFields, EncodeStr, Formed;
      FormedParts(t);
      var n, k := |t.names|, 0;
      while k < n
        invariant k <= n && bytes + EncodeFields(t, n - k) == old(bytes) + EncodeFields(t, n)
      {
        EncodeFieldsIs(t, n - k);
        ghost var here := bytes;
        WriteString(t.names[k]);
        WriteType(t.types[k]);
        assert here + (EncodeStr(t.names[k]) + Encode(t.types[k]) + EncodeFields(t, n - k - 1))
            == bytes + EncodeFields(t, n - k - 1);
        k := k + 1;
      }
      EncodeFieldsIs(t, 0);
    }

    ghost function Rest(): seq<int>
      requires pos <= |bytes|
      reads this
    {
      bytes[pos..]
    }

    method ReadByte() returns (b: int)
      requires pos < |bytes|
      modifies `pos
      ensures pos == old(pos) + 1 && b == old(Rest())[0] && Rest() == old(Rest())[1..]
    {
      b := bytes[pos];
      pos := pos + 1;
    }

    method ReadInt() returns (v: int)
      requires pos + 4 <= |bytes|
      modifies `pos
      ensures pos == old(pos) + 4 && v == Int4(old(Rest())) && Rest() == old(Rest())[4..]
    {
      hide Int4;
      IntPrefix(bytes[pos..], bytes[pos..pos + 4]);
      v := Int4(bytes[pos..pos + 4]);
      pos := pos + 4;
    }

    method ReadString() returns (value: Str)
      requires pos <= |bytes| && ParseStr(Rest()).Some?
      modifies `pos
      ensures pos <= |bytes| && ParseStr(old(Rest())) == Some((value, Rest()))
    {
      ghost var s := Rest();
      var b := ReadByte();
      var length := SignedChar(b);
      value := bytes[pos..pos + length];
      pos := pos + length;
      assert value == s[1..1 + length] && Rest() == s[1 + length..];
    }

    /** Reads a type; the bytes that follow it are left for the next read. */
    method ReadType() returns (t: Type)
      requires pos <= |bytes| && Parse(Rest()).Some?
      modifies `pos
      ensures pos <= |bytes| && Parse(old(Rest())) == Some((t, Rest()))
      decreases |bytes| - pos, 0
    {
      hide SignedChar, Int4;
      var typeClass := ReadByte();
      if typeClass == ARRAY_TYPE {
        var element := ReadType();
        var dimensions := ReadByte();
        var ds := ReadDimensions(SignedChar(dimensions));
        t := Array(element, ds);
      } else if typeClass == RECORD_TYPE {
        var elements := ReadByte();
        var names, types := ReadFields(SignedChar(elements));
        var id := ReadInt();
        t := Record(names, types, id);
      } else if typeClass == INTERVAL_TYPE {
        var base := ReadByte();
        IntPrefix(bytes[pos..], old(Rest())[2..6]);
        var first := ReadInt();
        IntPrefix(bytes[pos..], old(Rest())[6..10]);
        var last := ReadInt();
        t := Interval(base, first, last);
      } else {
        t := Simple(typeClass);
      }
    }

    method ReadDimensions(count: int) returns (ds: seq<Type>)
      requires pos <= |bytes| && ParseAll(Rest(), count).Some?
      modifies `pos
      ensures pos <= |bytes| && ParseAll(old(Rest()), count) == Some((ds, Rest()))
      decreases |bytes| - pos, 1
    {
      hide Parse;
      var dimensions := count;
      ds := [];
      assert ds + ParseAll(Rest(), count).value.0 == ParseAll(Rest(), count).value.0;
      while dimensions > 0
        invariant pos <= |bytes| && old(pos) <= pos && ParseAll(Rest(), dimensions).Some?
        invariant ParseAll(old(Rest()), count) ==
                  Some((ds + ParseAll(Rest(), dimensions).value.0, ParseAll(Rest(), dimensions).value.1))
        decreases dimensions
      {
        ghost var here := Rest();
        var d := ReadType();
        OneDimension(here, Rest(), dimensions, d);
        Shifted(ds, d, ParseAll(Rest(), dimensions - 1).value.0);
        ds := ds + [d];
        dimensions := dimensions - 1;
      }
      assert ds + [] == ds;
    }

    method ReadFields(count: int) returns (names: seq<Str>, types: seq<Type>)
      requires pos <= |bytes| && ParseFields(Rest(), count).Some?
      modifies `pos
      ensures pos <= |bytes| && ParseFields(old(Rest()), count) == Some((names, types, Rest()))
      decreases |bytes| - pos, 1
    {
      hide Parse, ParseStr;
      var elements := count;
      names, types := [], [];
      ghost var all := ParseFields(Rest(), count).value;
      assert names + all.0 == all.0 && types + all.1 == all.1;
      while elements > 0
        invariant pos <= |bytes| && old(pos) <= pos && ParseFields(Rest(), elements).Some?
        invariant ParseFields(old(Rest()), count) ==
                  Some((names + ParseFields(Rest(), elements).value.0, types + ParseFields(Rest(), elements).value.1,
                        ParseFields(Rest(), elements).value.2))
        decreases elements
      {
        ghost var here := Rest();
        var name := ReadString();
        ghost var mid := Rest();
        var t := ReadType();
        OneField(here, mid, Rest(), elements, name, t);
        ghost var r := ParseFields(Rest(), elements - 1).value;
        Shifted(names, name, r.0);
        Shifted(types, t, r.1);
        names, types := names + [name], types + [t];
        elements := elements - 1;
      }
      assert names + [] == names && types + [] == types;
    }
  }

  /** Reading fields goes on behind the first of them. */
  lemma OneField(s: seq<int>, mid: seq<int>, rest: seq<int>, n: int, name: Str, t: Type)
    requires n > 0 && ParseFields(s, n).Some? && ParseStr(s) == Some((name, mid)) && Parse(mid) == Some((t, rest))
    ensures ParseFields(rest, n - 1).Some?
    ensures var r := ParseFields(rest, n - 1).value; ParseFields(s, n).value == ([name] + r.0, [t] + r.1, r.2)
  {
    hide Parse, ParseStr;
  }

  lemma OneDimension(s: seq<int>, rest: seq<int>, n: int, t: Type)
    requires n > 0 && ParseAll(s, n).Some? && Parse(s) == Some((t, rest))
    ensures ParseAll(rest, n - 1).Some?
    ensures var r := ParseAll(rest, n - 1).value; ParseAll(s, n).value == ([t] + r.0, r.1)
  {
    hide Parse;
  }

  lemma Shifted<T>(a: seq<T>, x: T, b: seq<T>)
    ensures a + ([x] + b) == a + [x] + b
  {}

  lemma IntPrefix(s: seq<int>, four: seq<int>)
    requires |s| >= 4 && four == s[..4]
    ensures Int4(s) == Int4(four)
  {}

  lemma FormedParts(t: Type)
    requires Formed(t)
    ensures t.Array? ==> Formed(t.element) && forall i :: 0 <= i < |t.dimensions| ==> Formed(t.dimensions[i])
    ensures t.Record? ==> |t.names| == |t.types| && forall i :: 0 <= i < |t.types| ==> Formed(t.types[i])
  {}

  lemma EncodeAllIs(t: Type, n: nat)
    requires t.Array? && Formed(t) && n <= |t.dimensions|
    ensures EncodeAll(t, n) == if n == 0 then [] else Encode(t.dimensions[|t.dimensions| - n]) + EncodeAll(t, n - 1)
  {
    hide Encode;
  }

  lemma EncodeFieldsIs(t: Type, n: nat)
    requires t.Record? && Formed(t) && n <= |t.names|
    ensures EncodeFields(t, n) ==
            if n == 0 then []
            else EncodeStr(t.names[|t.names| - n]) + Encode(t.types[|t.names| - n]) + EncodeFields(t, n - 1)
  {
    hide Encode, EncodeStr;
  }
}
